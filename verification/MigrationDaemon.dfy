/** A migrate job and a recovery pass as the daemon executes them. Every effect performed
    is recorded, and the record is a run of the transition system, so everything proved
    of that system holds of the code. */
module MigrationDaemon {
  import opened Manifests
  import opened Migration
  import opened MigrationSafety
  import opened MigrationOutcome
  import opened MigrationRecovery
  import opened Options
  import Replies

  class Daemon {
    const declared: seq<string>
    var src: Host
    var dst: Host
    ghost var trace: seq<State>

    ghost const names: set<string> := set v | v in declared

    function View(): Cluster
      reads this
    {
      Cluster(src, dst)
    }

    /** The record is a run, and it ends in the present. */
    ghost predicate Valid()
      reads this
    {
      && trace != [] && Now().c == View()
      && forall i :: 0 < i < |trace| ==> Next(names, trace[i - 1], trace[i])
    }

    ghost function Now(): State
      reads this
      requires trace != []
    {
      trace[|trace| - 1]
    }

    constructor (declared: seq<string>, src: Host, dst: Host, ghost at: Control, ghost snap: map<string, Content>,
                 ghost stopped: bool)
      ensures Valid() && View() == Cluster(src, dst) && this.declared == declared
      ensures trace == [State(Cluster(src, dst), at, snap, stopped, false)]
    {
      this.declared, this.src, this.dst := declared, src, dst;
      trace := [State(Cluster(src, dst), at, snap, stopped, false)];
    }

    method Attempt(faulty: bool) returns (r: Replies.Reply)
      ensures !faulty ==> r.Done?
    {
      r := Replies.Done;
      if faulty {
        var failed: bool, happened: bool := *, *;
        r := if failed then Replies.Failed(happened) else Replies.Done;
      }
    }

    /** Asks a host or the store whether something is so; a failed call tells nothing. */
    method Ask(fact: bool, faulty: bool) returns (seen: Option<bool>)
      ensures seen.Some? ==> seen.value == fact
      ensures !faulty ==> seen.Some?
    {
      var reply := Attempt(faulty);
      seen := if reply.Done? then Some(fact) else None;
    }

    ghost method Log(s: State)
      requires trace != [] && Next(names, Now(), s) && s.c == View()
      requires forall i :: 0 < i < |trace| ==> Next(names, trace[i - 1], trace[i])
      modifies `trace
      ensures Valid() && trace == old(trace) + [s]
    {
      trace := trace + [s];
    }

    /** Records the next step of the pass itself. */
    ghost method Move(at: Control, seenHealthy: bool)
      requires Valid() && RecoverStep(names, Now(), Now().(at := at, seenHealthy := seenHealthy))
      modifies `trace
      ensures Valid() && trace == old(trace) + [old(Now()).(at := at, seenHealthy := seenHealthy)]
    {
      Log(Now().(at := at, seenHealthy := seenHealthy));
    }

    method Set(at: Side, h: Host)
      modifies `src, `dst
      ensures View() == Put(old(View()), at, h)
    {
      if at == Src {
        src := h;
      } else {
        dst := h;
      }
    }

    /** Force-removes the pod, then prunes: best effort, one volume at a time. */
    method Delete(at: Side, cause: Cause, faulty: bool) returns (err: bool)
      requires Valid() && Now().at == Deleting(at, RemovePod, cause)
      modifies this
      ensures Valid() && old(trace) <= trace
      ensures err ==> Now().at == OnError(cause)
      ensures !err ==> Now().at == Deleting(at, Refresh, cause)
      ensures Now().seenHealthy == old(Now().seenHealthy)
      ensures View() == Put(old(View()), at, On(View(), at))
      ensures !err ==> On(View(), at).pod == NoPod && !On(View(), at).spec
      ensures !faulty ==> !err && View() == Put(old(View()), at, Host(NoPod, On(old(View()), at).vols - names, false))
    {
      hide CopyStep, ApplyStep, RecoverStep, WriteStep, HealthStep, CrashStep;
      var h := On(View(), at);
      var reply := Attempt(faulty);
      if reply.Happened() {
        Set(at, h.(pod := NoPod));
      }
      if reply.Failed? {
        Log(Now().(c := View(), at := OnError(cause)));
        return true;
      }
      Log(Now().(c := View(), at := Deleting(at, Prune, cause)));
      PruneVolumes(at, cause, faulty);
      err := DeleteSpec(at, cause, faulty);
    }

    method RemoveVolume(at: Side, cause: Cause, v: string, faulty: bool)
      requires Valid() && Now().at == Deleting(at, Prune, cause) && v in names
      modifies this
      ensures Valid() && old(trace) <= trace && Now().at == old(Now().at) && Now().seenHealthy == old(Now().seenHealthy)
      ensures View() == Put(old(View()), at, On(old(View()), at).(vols := On(View(), at).vols))
      ensures !faulty ==> View() == Put(old(View()), at, On(old(View()), at).(vols := On(old(View()), at).vols - {v}))
    {
      hide CopyStep, ApplyStep, RecoverStep, WriteStep, HealthStep, CrashStep;
      var h := On(View(), at);
      var reply := Attempt(faulty);
      if reply.Happened() {
        Set(at, h.(vols := h.vols - {v}));
        assert PruneOne(Now(), Now().(c := View()), h, v);
        Log(Now().(c := View()));
      }
    }

    method PruneVolumes(at: Side, cause: Cause, faulty: bool)
      requires Valid() && Now().at == Deleting(at, Prune, cause)
      modifies this
      ensures Valid() && old(trace) <= trace && Now().at == Deleting(at, DropSpec, cause)
      ensures Now().seenHealthy == old(Now().seenHealthy)
      ensures View() == Put(old(View()), at, On(old(View()), at).(vols := On(View(), at).vols))
      ensures !faulty ==> View() == Put(old(View()), at, On(old(View()), at).(vols := On(old(View()), at).vols - names))
    {
      hide CopyStep, ApplyStep, RecoverStep, WriteStep, HealthStep, CrashStep;
      ghost var h0 := On(View(), at);
      assert h0.vols - {} == h0.vols;
      for i := 0 to |declared|
        invariant Valid() && old(trace) <= trace && Now().seenHealthy == old(Now().seenHealthy)
        invariant Now().at == Deleting(at, Prune, cause)
        invariant View() == Put(old(View()), at, h0.(vols := On(View(), at).vols))
        invariant !faulty ==> View() == Put(old(View()), at, h0.(vols := h0.vols - set j | 0 <= j < i :: declared[j]))
      {
        var v := declared[i];
        RemoveVolume(at, cause, v, faulty);
        ghost var gone := set j | 0 <= j < i :: declared[j];
        assert gone + {v} == set j | 0 <= j < i + 1 :: declared[j];
        assert h0.vols - gone - {v} == h0.vols - (gone + {v});
      }
      assert names == set j | 0 <= j < |declared| :: declared[j];
      Log(Now().(at := Deleting(at, DropSpec, cause)));
    }

    method DeleteSpec(at: Side, cause: Cause, faulty: bool) returns (err: bool)
      requires Valid() && Now().at == Deleting(at, DropSpec, cause)
      modifies this
      ensures Valid() && old(trace) <= trace && Now().seenHealthy == old(Now().seenHealthy)
      ensures err ==> Now().at == OnError(cause)
      ensures !err ==> Now().at == Deleting(at, Refresh, cause)
      ensures View() == Put(old(View()), at, On(old(View()), at).(spec := On(View(), at).spec))
      ensures !err ==> !On(View(), at).spec
      ensures !faulty ==> !err && View() == Put(old(View()), at, On(old(View()), at).(spec := false))
    {
      hide CopyStep, ApplyStep, RecoverStep, WriteStep, HealthStep, CrashStep;
      var h := On(View(), at);
      var reply := Attempt(faulty);
      if reply.Happened() {
        Set(at, h.(spec := false));
      }
      err := reply.Failed?;
      Log(Now().(c := View(), at := if err then OnError(cause) else Deleting(at, Refresh, cause)));
    }

    /** Starts the source pod again; a lost reply leaves the outcome open. */
    method StartSource(faulty: bool) returns (err: bool)
      requires Valid() && Now().at == RestoreSource
      modifies this
      ensures Valid() && old(trace) <= trace
      ensures dst == old(dst) && src.vols == old(src.vols) && src.spec == old(src.spec)
      ensures err ==> Now().at == Recover
      ensures !err ==> Now().at == Deleting(Dst, RemovePod, Back) && src.pod.Running?
      ensures !faulty && old(src.pod) != NoPod ==> !err
    {
      hide CopyStep, ApplyStep, DeleteStep, WriteStep, HealthStep, CrashStep;
      if src.pod == NoPod {
        Log(Now().(at := Recover));
        return true;
      }
      var reply := Attempt(faulty);
      if reply.Happened() {
        var healthy: bool := *;
        src := src.(pod := Running(healthy));
      }
      err := reply.Failed?;
      Log(Now().(c := View(), at := if err then Recover else Deleting(Dst, RemovePod, Back)));
    }

    /** Answers the job once a delete has run and the paired instances are restarted. */
    method Conclude(cause: Cause, faulty: bool) returns (resolved: bool)
      requires Valid() && Now().at.Deleting? && Now().at.stage == Refresh && Now().at.cause == cause
      modifies `trace
      ensures Valid() && old(trace) <= trace
      ensures Now().at == if resolved then OnSuccess(cause) else OnError(cause)
      ensures !faulty ==> resolved
    {
      hide CopyStep, ApplyStep, RecoverStep, WriteStep, HealthStep, CrashStep;
      var reply := Attempt(faulty);
      resolved := reply.Done?;
      Log(Now().(at := if resolved then OnSuccess(cause) else OnError(cause)));
    }

    // ----- A migrate job -----

    /** Stops the source pod, which settles its volumes. */
    method StopSource(faulty: bool) returns (ok: bool)
      requires Valid() && Now().at == Control.StopSource
      modifies this
      ensures Valid() && old(trace) <= trace && dst == old(dst)
      ensures Now().at == if ok then Control.ListVolumes else Done(Failed)
      ensures !faulty && old(src.pod) != NoPod ==> ok
      ensures ok ==> old(src.pod) != NoPod && src == Settled(old(src))
      ensures !faulty && !ok ==> src == old(src)
    {
      hide ApplyStep, DeleteStep, RecoverStep, WriteStep, HealthStep, CrashStep;
      if src.pod == NoPod {
        Log(Now().(at := Done(Failed)));
        return false;
      }
      var reply := Attempt(faulty);
      ok := reply.Done?;
      if reply.Happened() {
        src := Settled(src);
        Log(Now().(c := View(), snap := Snapshot(names, src), stopped := true,
                   at := if ok then Control.ListVolumes else Done(Failed)));
      } else {
        Log(Now().(at := Done(Failed)));
      }
    }

    /** The declared volumes the source has. */
    method ListVolumes(faulty: bool) returns (ok: bool, todo: seq<string>)
      requires Valid() && Now().at == Control.ListVolumes
      modifies `trace
      ensures Valid() && old(trace) <= trace
      ensures Now().at == if ok then CreateVolume(todo) else RollbackStart
      ensures ok ==> forall v :: v in todo <==> v in names && v in src.vols
      ensures !faulty ==> ok
    {
      hide ApplyStep, DeleteStep, RecoverStep, WriteStep, HealthStep, CrashStep;
      todo := [];
      for i := 0 to |declared|
        invariant forall v :: v in todo <==> v in declared[..i] && v in src.vols
      {
        if declared[i] in src.vols {
          todo := todo + [declared[i]];
        }
      }
      assert declared[..|declared|] == declared;
      var reply := Attempt(faulty);
      ok := reply.Done?;
      Log(Now().(at := if ok then CreateVolume(todo) else RollbackStart));
    }

    method CreateDest(ghost todo: seq<string>, v: string, faulty: bool) returns (ok: bool)
      requires Valid() && Now().at == CreateVolume(todo) && todo != [] && v == todo[0]
      modifies this
      ensures Valid() && old(trace) <= trace && src == old(src) && dst == old(dst).(vols := dst.vols)
      ensures dst.vols - {v} == old(dst.vols) - {v}
      ensures Now().at == if ok then CopyVolume(todo) else RollbackStart
      ensures !faulty ==> ok
    {
      hide ApplyStep, DeleteStep, RecoverStep, WriteStep, HealthStep, CrashStep;
      var reply := Attempt(faulty);
      ok := reply.Done?;
      if reply.Happened() && v !in dst.vols {
        dst := dst.(vols := dst.vols[v := Volume(Content(map[], map[]), [])]);
      }
      Log(Now().(c := View(), at := if ok then CopyVolume(todo) else RollbackStart));
    }

    /** Streams a volume across; a failed import may leave anything behind. */
    method Transfer(ghost todo: seq<string>, v: string, faulty: bool) returns (ok: bool, want: Manifest)
      requires Valid() && Now().at == CopyVolume(todo) && todo != [] && v == todo[0] && v in src.vols
      modifies this
      ensures Valid() && old(trace) <= trace && src == old(src) && dst == old(dst).(vols := dst.vols)
      ensures dst.vols - {v} == old(dst.vols) - {v} && v in dst.vols && want == src.vols[v].Live().checked
      ensures Now().at == if ok then VerifyVolume(todo, want) else RollbackStart
      ensures !faulty ==> ok && dst.vols[v] == Volume(src.vols[v].Live(), [])
    {
      hide ApplyStep, DeleteStep, RecoverStep, WriteStep, HealthStep, CrashStep;
      var reply := Attempt(faulty);
      ok, want := reply.Done?, src.vols[v].Live().checked;
      var content := src.vols[v].Live();
      if faulty {
        content := *;
      }
      dst := dst.(vols := dst.vols[v := Volume(content, [])]);
      Log(Now().(c := View(), at := if ok then VerifyVolume(todo, want) else RollbackStart));
    }

    /** Re-exports the copy and compares. */
    method Verify(ghost todo: seq<string>, v: string, want: Manifest, faulty: bool) returns (ok: bool)
      requires Valid() && Now().at == VerifyVolume(todo, want) && todo != [] && v == todo[0] && v in dst.vols
      modifies `trace
      ensures Valid() && old(trace) <= trace
      ensures Now().at == if ok then CreateVolume(todo[1..]) else RollbackStart
      ensures !faulty && dst.vols[v].Live().checked == want ==> ok
    {
      hide ApplyStep, DeleteStep, RecoverStep, WriteStep, HealthStep, CrashStep;
      var reply := Attempt(faulty);
      ok := reply.Done? && dst.vols[v].Live().checked == want;
      Log(Now().(at := if ok then CreateVolume(todo[1..]) else RollbackStart));
    }

    /** Copies and verifies the listed volumes, one after the other. */
    method CopyVolumes(todo: seq<string>, faulty: bool) returns (ok: bool)
      requires Valid() && Now().at == CreateVolume(todo) && forall v :: v in todo ==> v in src.vols && v in names
      modifies this
      ensures Valid() && old(trace) <= trace && src == old(src) && dst == old(dst).(vols := dst.vols)
      ensures Now().at == if ok then CreateVolume([]) else RollbackStart
      ensures !faulty ==> ok && forall v :: v in todo ==> v in dst.vols && dst.vols[v] == Volume(src.vols[v].Live(), [])
      ensures Spares(old(dst.vols), dst.vols)
    {
      hide Next;
      for i := 0 to |todo|
        invariant Valid() && old(trace) <= trace && src == old(src) && dst == old(dst).(vols := dst.vols)
        invariant Spares(old(dst.vols), dst.vols)
        invariant Now().at == CreateVolume(todo[i..])
        invariant !faulty ==> forall j :: 0 <= j < i ==>
                  todo[j] in dst.vols && dst.vols[todo[j]] == Volume(src.vols[todo[j]].Live(), [])
      {
        ghost var before := dst.vols;
        ok := CopyOne(todo[i..], faulty);
        assert Spares(before, dst.vols) by {
          assert forall v :: v in before && v !in names ==> v in before - {todo[i]};
        }
        if !ok {
          return false;
        }
        assert todo[i..][1..] == todo[i + 1..];
        forall j | 0 <= j < i && !faulty
          ensures todo[j] in dst.vols && dst.vols[todo[j]] == Volume(src.vols[todo[j]].Live(), [])
        {
          assert todo[j] != todo[i] ==> todo[j] in before - {todo[i]};
        }
      }
      assert todo[|todo|..] == [];
      return true;
    }

    method CopyOne(todo: seq<string>, faulty: bool) returns (ok: bool)
      requires Valid() && Now().at == CreateVolume(todo) && todo != [] && todo[0] in src.vols
      modifies this
      ensures Valid() && old(trace) <= trace && src == old(src) && dst == old(dst).(vols := dst.vols)
      ensures dst.vols - {todo[0]} == old(dst.vols) - {todo[0]}
      ensures Now().at == if ok then CreateVolume(todo[1..]) else RollbackStart
      ensures !faulty ==> ok && todo[0] in dst.vols && dst.vols[todo[0]] == Volume(src.vols[todo[0]].Live(), [])
    {
      hide Next;
      var v := todo[0];
      ok := CreateDest(todo, v, faulty);
      if !ok {
        return;
      }
      var want;
      ok, want := Transfer(todo, v, faulty);
      if !ok {
        return;
      }
      ok := Verify(todo, v, want, faulty);
    }

    /** An apply goes ahead only where there is no pod. */
    method InspectDest(faulty: bool) returns (ok: bool)
      requires Valid() && Now().at == CreateVolume([])
      modifies `trace
      ensures Valid() && old(trace) <= trace
      ensures Now().at == if ok then ApplyPlay else RollbackStart
      ensures ok ==> dst.pod == NoPod
      ensures !faulty && dst.pod == NoPod ==> ok
    {
      hide DeleteStep, RecoverStep, WriteStep, HealthStep, CrashStep;
      Log(Now().(at := ApplyInspect));
      var reply := Attempt(faulty);
      ok := reply.Done? && dst.pod == NoPod;
      Log(Now().(at := if ok then ApplyPlay else RollbackStart));
    }

    /** Plays the pod on the destination; existing volumes are reused, missing ones made. */
    method PlayDest(faulty: bool) returns (ok: bool)
      requires Valid() && Now().at == ApplyPlay
      modifies this
      ensures Valid() && old(trace) <= trace && src == old(src) && dst.spec == old(dst.spec)
      ensures forall v :: v in old(dst.vols) ==> v in dst.vols && dst.vols[v] == old(dst.vols)[v]
      ensures Now().at == if ok then ApplyPersist else RollbackStart
      ensures ok ==> dst.pod.Running?
      ensures !faulty ==> ok
    {
      hide CopyStep, DeleteStep, RecoverStep, WriteStep, HealthStep, CrashStep;
      var reply := Attempt(faulty);
      ok := reply.Done?;
      if reply.Happened() {
        var healthy: bool, made: map<string, Volume> := *, *;
        var played := Host(Running(healthy), made + dst.vols, dst.spec);
        assert Played(dst, played);
        dst := played;
      }
      Log(Now().(c := View(), at := if ok then ApplyPersist else RollbackStart));
    }

    /** Persists the desired state and refreshes the proxy. */
    method PersistDest(faulty: bool) returns (ok: bool)
      requires Valid() && Now().at == ApplyPersist
      modifies this
      ensures Valid() && old(trace) <= trace && src == old(src) && dst == old(dst).(spec := dst.spec)
      ensures Now().at == if ok then AwaitDest else RollbackStart
      ensures ok ==> dst.spec
      ensures !faulty ==> ok
    {
      hide CopyStep, DeleteStep, RecoverStep, WriteStep, HealthStep, CrashStep;
      var reply := Attempt(faulty);
      if reply.Happened() {
        dst := dst.(spec := true);
      }
      if reply.Failed? {
        Log(Now().(c := View(), at := RollbackStart));
        return false;
      }
      Log(Now().(c := View(), at := ApplyIngress));
      reply := Attempt(faulty);
      ok := reply.Done?;
      Log(Now().(at := if ok then AwaitDest else RollbackStart));
    }

    /** Polls until the destination is ready or time runs out. */
    method WaitRunning(healthy: bool, faulty: bool) returns (ok: bool)
      requires Valid() && Now().at == AwaitDest && dst.pod != NoPod
      modifies this
      ensures Valid() && old(trace) <= trace && src == old(src) && dst == old(dst).(pod := Running(healthy))
      ensures ok ==> healthy
      ensures Now().at == if ok then Deleting(Src, RemovePod, Commit) else RollbackStart
      ensures !faulty && healthy ==> ok
    {
      hide CopyStep, DeleteStep, RecoverStep, WriteStep, CrashStep;
      dst := dst.(pod := Running(healthy));
      assert HealthStep(Now(), Now().(c := View()));
      Log(Now().(c := View()));
      var reply := Attempt(faulty);
      ok := reply.Done? && healthy;
      if ok {
        Log(Now().(at := Deleting(Src, RemovePod, Commit), seenHealthy := true));
      } else {
        Log(Now().(at := RollbackStart));
      }
    }

    method CopyAll(faulty: bool) returns (ok: bool)
      requires Valid() && Now().at == Control.ListVolumes
      modifies this
      ensures Valid() && old(trace) <= trace && src == old(src) && dst == old(dst).(vols := dst.vols)
      ensures Now().at == if ok then CreateVolume([]) else RollbackStart
      ensures !faulty ==> ok && Copied(src, dst)
      ensures Spares(old(dst.vols), dst.vols)
    {
      hide Next;
      var todo;
      ok, todo := ListVolumes(faulty);
      if ok {
        ok := CopyVolumes(todo, faulty);
      }
    }

    /** The destination has what the source last had of every declared volume. */
    ghost predicate Copied(from: Host, to: Host)
    {
      forall v :: v in names && v in from.vols ==> v in to.vols && to.vols[v] == Volume(from.vols[v].Live(), [])
    }

    /** No undeclared volume is touched. */
    ghost predicate Spares(before: map<string, Volume>, after: map<string, Volume>)
    {
      forall v :: v in before && v !in names ==> v in after && after[v] == before[v]
    }

    /** Everything between stopping the source and the commit. */
    method PostStop(healthy: bool, faulty: bool) returns (ok: bool)
      requires Valid() && Now().at == Control.ListVolumes
      modifies this
      ensures Valid() && old(trace) <= trace && src == old(src)
      ensures Now().at == if ok then Deleting(Src, RemovePod, Commit) else RollbackStart
      ensures ok ==> dst.pod == Running(true) && dst.spec
      ensures !faulty ==> (ok <==> healthy && old(dst.pod) == NoPod)
      ensures !faulty && ok ==> Copied(src, dst)
      ensures Spares(old(dst.vols), dst.vols)
    {
      hide Next;
      ok := CopyAll(faulty);
      if !ok {
        return;
      }
      ok := InspectDest(faulty);
      if !ok {
        return;
      }
      ok := PlayDest(faulty);
      if !ok {
        return;
      }
      ok := PersistDest(faulty);
      if !ok {
        return;
      }
      ok := WaitRunning(healthy, faulty);
    }

    /** The destination is now the truth: reap the source. */
    method CommitSource(faulty: bool) returns (ok: bool)
      requires Valid() && Now().at == Deleting(Src, RemovePod, Commit)
      modifies this
      ensures Valid() && old(trace) <= trace && Now().at == Done(if ok then Succeeded else Failed)
      ensures !faulty ==> ok && dst == old(dst) && src == Host(NoPod, old(src.vols) - names, false)
    {
      hide Next;
      var err := Delete(Src, Commit, faulty);
      if err {
        return false;
      }
      ok := Conclude(Commit, faulty);
    }

    /** Starts the source again, best effort, and reaps the destination. */
    method Rollback(faulty: bool)
      requires Valid() && Now().at == RollbackStart
      modifies this
      ensures Valid() && old(trace) <= trace && Now().at == Done(Failed)
      ensures !faulty ==> src == old(src).(pod := src.pod) && (old(src.pod) != NoPod ==> src.pod.Running?)
      ensures !faulty ==> dst == Host(NoPod, old(dst.vols) - names, false)
    {
      RestartSource(faulty);
      hide Next;
      var err := Delete(Dst, Cause.Rollback, faulty);
      if !err {
        var _ := Conclude(Cause.Rollback, faulty);
      }
    }

    method RestartSource(faulty: bool)
      requires Valid() && Now().at == RollbackStart
      modifies this
      ensures Valid() && old(trace) <= trace && Now().at == Deleting(Dst, RemovePod, Cause.Rollback)
      ensures dst == old(dst) && src == old(src).(pod := src.pod)
      ensures !faulty && old(src.pod) != NoPod ==> src.pod.Running?
    {
      hide CopyStep, DeleteStep, RecoverStep, WriteStep, HealthStep, CrashStep;
      var reply := Attempt(faulty);
      if src.pod != NoPod && reply.Happened() {
        var healthy: bool := *;
        src := src.(pod := Running(healthy));
      }
      Log(Now().(c := View(), at := Deleting(Dst, RemovePod, Cause.Rollback)));
    }

    method PreflightDest(faulty: bool) returns (ok: bool)
      requires Valid() && Now().at == Preflight
      modifies `trace
      ensures Valid() && old(trace) <= trace
      ensures Now().at == if ok then Control.StopSource else Done(Failed)
      ensures !faulty ==> (ok <==> src.spec && dst.pod == NoPod)
      ensures ok ==> src.spec && dst.pod == NoPod
    {
      hide ApplyStep, DeleteStep, RecoverStep, WriteStep, HealthStep, CrashStep;
      var reply := Attempt(faulty);
      ok := reply.Done? && src.spec && dst.pod == NoPod;
      Log(Now().(at := if ok then Control.StopSource else Done(Failed)));
    }

    /** The whole job. What it did is a run of the transition system, so with a free
        destination the snapshot was complete on one of the hosts throughout, and on the
        destination if success is reported. Without faults it moves exactly the declared
        volumes when the destination turns healthy, and otherwise puts everything back. */
    method Migrate(healthy: bool, faulty: bool) returns (ok: bool)
      requires Valid() && |trace| == 1 && Start(names, Now())
      modifies this
      ensures Valid() && IsRun(names, trace) && trace[0] == old(Now())
      ensures Now().at == Done(if ok then Succeeded else Failed)
      ensures DestFree(old(Now())) ==> forall i :: 0 <= i < |trace| ==> Safe(trace[i])
      ensures DestFree(old(Now())) && ok ==> Moved(View()) && Holds(dst, Now().snap)
      ensures !faulty ==> (ok <==> healthy && old(src.pod) != NoPod && old(dst.pod) == NoPod)
      ensures !faulty && ok ==> src == Host(NoPod, Settled(old(src)).vols - names, false)
      ensures !faulty && ok ==> dst.spec && dst.pod == Running(true)
      ensures !faulty && ok ==> Copied(old(src), dst)
      ensures !faulty && (old(src.pod) == NoPod || old(dst.pod) != NoPod) ==> View() == old(View())
      ensures !faulty && !ok && old(src.pod) != NoPod && old(dst.pod) == NoPod ==>
              && src.pod.Running? && src == Settled(old(src)).(pod := src.pod)
              && dst.pod == NoPod && !dst.spec && dst.vols.Keys !! names
      ensures !faulty ==> Spares(old(dst.vols), dst.vols)
    {
      hide Next;
      ok := RunJob(healthy, faulty);
      if DestFree(trace[0]) {
        NoDataLoss(names, trace);
        ReportsAreTrue(names, trace, |trace| - 1);
      }
    }

    method RunJob(healthy: bool, faulty: bool) returns (ok: bool)
      requires Valid() && Now().at == Preflight && src.spec
      modifies this
      ensures Valid() && old(trace) <= trace
      ensures Now().at == Done(if ok then Succeeded else Failed)
      ensures !faulty ==> (ok <==> healthy && old(src.pod) != NoPod && old(dst.pod) == NoPod)
      ensures !faulty && ok ==> src == Host(NoPod, Settled(old(src)).vols - names, false)
      ensures !faulty && ok ==> dst.spec && dst.pod == Running(true)
      ensures !faulty && ok ==> Copied(old(src), dst)
      ensures !faulty && (old(src.pod) == NoPod || old(dst.pod) != NoPod) ==> View() == old(View())
      ensures !faulty && !ok && old(src.pod) != NoPod && old(dst.pod) == NoPod ==>
              && src.pod.Running? && src == Settled(old(src)).(pod := src.pod)
              && dst.pod == NoPod && !dst.spec && dst.vols.Keys !! names
      ensures !faulty ==> Spares(old(dst.vols), dst.vols)
    {
      assert Settled(src).pod == Stopped && Spares(dst.vols, dst.vols);
      hide Next, Settled, Copied, Spares;
      ok := PreflightDest(faulty);
      if !ok {
        return;
      }
      ok := StopSource(faulty);
      if !ok {
        return;
      }
      ok := PostStop(healthy, faulty);
      if !ok {
        PruneSpares(old(dst.vols), dst.vols);
        Rollback(faulty);
        return;
      }
      SettledCopied(old(src), dst);
      ok := CommitSource(faulty);
    }

    lemma PruneSpares(before: map<string, Volume>, after: map<string, Volume>)
      requires Spares(before, after)
      ensures Spares(before, after - names) && (after - names).Keys !! names
    {
    }

    lemma SettledCopied(from: Host, to: Host)
      ensures Copied(Settled(from), to) <==> Copied(from, to)
    {
    }

    // ----- A recovery pass -----

    method RollForward(srcPresent: bool, faulty: bool) returns (resolved: bool)
      requires Valid() && Now().at == RecoverSpec(srcPresent) && dst.spec
      requires srcPresent <==> src.pod != NoPod
      modifies this
      ensures Valid() && old(trace) <= trace
      ensures Now().at == if resolved then Done(RolledForward) else Recover
      ensures resolved ==> dst == old(dst) && src.pod == NoPod && !src.spec
      ensures !faulty ==> resolved && dst == old(dst) && src == Host(NoPod, old(src.vols) - names, false)
    {
      hide Next, CopyStep, ApplyStep, DeleteStep, WriteStep, HealthStep, CrashStep;
      var err: bool;
      var cause := if srcPresent then Forward else Adopt;
      if srcPresent {
        Move(Deleting(Src, RemovePod, Forward), Now().seenHealthy);
        err := Delete(Src, Forward, faulty);
      } else {
        Move(Deleting(Src, Prune, Adopt), Now().seenHealthy);
        PruneVolumes(Src, Adopt, faulty);
        err := DeleteSpec(Src, Adopt, faulty);
      }
      if err {
        return false;
      }
      resolved := Conclude(cause, faulty);
    }

    method RollBack(faulty: bool) returns (resolved: bool)
      requires Valid() && Now().at == RestoreSource && src.pod != NoPod
      modifies this
      ensures Valid() && old(trace) <= trace
      ensures Now().at == if resolved then Done(RolledBack) else Recover
      ensures resolved ==> src.pod.Running? && dst.pod == NoPod && !dst.spec
      ensures !faulty ==> resolved && src.vols == old(src.vols) && src.spec == old(src.spec) && src.pod.Running?
      ensures !faulty ==> dst == Host(NoPod, old(dst.vols) - names, false)
    {
      hide Next;
      var err := StartSource(faulty);
      if err {
        return false;
      }
      err := Delete(Dst, Back, faulty);
      if err {
        return false;
      }
      resolved := Conclude(Back, faulty);
    }

    /** Looks at the source pod, then the destination pod, then its desired state, and
        mutates nothing. `trusted` means the destination is a complete replacement. */
    method Inspect(faulty: bool) returns (ok: bool, srcPresent: bool, trusted: bool)
      requires Valid() && Now().at == Recover
      modifies `trace
      ensures Valid() && old(trace) <= trace && View() == old(View())
      ensures !faulty ==> ok
      ensures !ok ==> Now().at == Recover
      ensures ok ==> (srcPresent <==> src.pod != NoPod) && (trusted <==> Verdict(View()) == RolledForward)
      ensures ok && trusted ==> Now().at == RecoverSpec(srcPresent)
      ensures ok && !trusted ==> Now().at == Distrust(srcPresent, dst.pod != NoPod)
    {
      hide CopyStep, ApplyStep, DeleteStep, WriteStep, HealthStep, CrashStep;
      var seen := Ask(src.pod != NoPod, faulty);
      if seen.None? {
        return false, false, false;
      }
      srcPresent := seen.value;
      Move(RecoverDest(srcPresent), false);
      ok, trusted := Judge(srcPresent, faulty);
    }

    /** Is the destination a complete replacement? */
    method Judge(srcPresent: bool, faulty: bool) returns (ok: bool, trusted: bool)
      requires Valid() && Now().at == RecoverDest(srcPresent)
      modifies `trace
      ensures Valid() && old(trace) <= trace && View() == old(View())
      ensures !faulty ==> ok
      ensures !ok ==> Now().at == Recover
      ensures ok ==> (trusted <==> Verdict(View()) == RolledForward)
      ensures ok && trusted ==> Now().at == RecoverSpec(srcPresent)
      ensures ok && !trusted ==> Now().at == Distrust(srcPresent, dst.pod != NoPod)
    {
      hide CopyStep, ApplyStep, DeleteStep, WriteStep, HealthStep, CrashStep;
      var seen := Ask(dst.pod == Running(true), faulty);
      if seen.None? {
        Move(Recover, Now().seenHealthy);
        return false, false;
      }
      if seen.value {
        Move(RecoverSpec(srcPresent), true);
        seen := Ask(dst.spec, faulty);
        if seen.None? {
          Move(Recover, Now().seenHealthy);
          return false, false;
        }
        if seen.value {
          return true, true;
        }
      }
      Move(Distrust(srcPresent, dst.pod != NoPod), Now().seenHealthy);
      return true, false;
    }

    /** One pass. Without faults it always resolves, with the verdict the hosts imply; an
        unreachable host or store leaves the job for a later pass. From a sound state the
        snapshot stays complete on one of the hosts throughout. */
    method ReconcileMigrate(faulty: bool) returns (resolved: bool, outcome: Outcome)
      requires Valid() && Now().at == Recover
      modifies this
      ensures Valid() && old(trace) <= trace
      ensures resolved ==> Now().at == Done(outcome)
      ensures !resolved ==> Now().at == Recover
      ensures resolved ==> outcome == Verdict(old(View()))
      ensures resolved && outcome == RolledBack ==> src.pod.Running? && dst.pod == NoPod && !dst.spec
      ensures resolved && outcome == RolledForward ==> dst == old(dst) && src.pod == NoPod && !src.spec
      ensures !faulty ==> resolved
      ensures !faulty && outcome == RolledForward ==>
              dst == old(dst) && src == Host(NoPod, old(src.vols) - names, false)
      ensures !faulty && outcome == RolledBack ==>
                src.pod.Running? && src == old(src).(pod := src.pod) && dst == Host(NoPod, old(dst.vols) - names, false)
      ensures !faulty && (outcome == OrphanDest || outcome == NotFound) ==> View() == old(View())
      ensures Inv(names, old(Now())) ==> forall i :: |old(trace)| - 1 <= i < |trace| ==> Safe(trace[i])
    {
      hide Next;
      resolved, outcome := Resolve(faulty);
      if Inv(names, old(Now())) {
        forall i | |old(trace)| - 1 <= i < |trace| ensures Safe(trace[i]) {
          InvPath(names, trace, |old(trace)| - 1, i);
        }
      }
    }

    method Resolve(faulty: bool) returns (resolved: bool, outcome: Outcome)
      requires Valid() && Now().at == Recover
      modifies this
      ensures Valid() && old(trace) <= trace
      ensures resolved ==> Now().at == Done(outcome)
      ensures !resolved ==> Now().at == Recover
      ensures resolved ==> outcome == Verdict(old(View()))
      ensures resolved && outcome == RolledBack ==> src.pod.Running? && dst.pod == NoPod && !dst.spec
      ensures resolved && outcome == RolledForward ==> dst == old(dst) && src.pod == NoPod && !src.spec
      ensures !faulty ==> resolved
      ensures !faulty && outcome == RolledForward ==>
              dst == old(dst) && src == Host(NoPod, old(src.vols) - names, false)
      ensures !faulty && outcome == RolledBack ==>
                src.pod.Running? && src == old(src).(pod := src.pod) && dst == Host(NoPod, old(dst.vols) - names, false)
      ensures !faulty && (outcome == OrphanDest || outcome == NotFound) ==> View() == old(View())
    {
      hide Next;
      var ok, srcPresent, trusted := Inspect(faulty);
      if !ok {
        return false, GaveUp;
      }
      if trusted {
        resolved := RollForward(srcPresent, faulty);
        return resolved, RolledForward;
      }
      if srcPresent {
        resolved := RollBack(faulty);
        return resolved, RolledBack;
      }
      return true, if dst.pod != NoPod then OrphanDest else NotFound;
    }
  }
}
