/** A snapshot backup as a job: the row it records, the blobs it writes, and the pod it
    stops and must start again. Any foreign call can fail, with or without its effect. */
module BackupJob {
  import opened Sorting
  import opened Replies
  import opened BackupScope
  import opened Backups

  datatype RowState = Creating | Complete | Failing

  datatype Row = Row(state: RowState, volumes: seq<string>)

  /** A volume's archive, written under these exclude patterns. */
  datatype Blob = Blob(id: string, volume: string, exclude: seq<string>)

  /** The recorded rows, the blob store, and whether the instance's pod is running. */
  datatype World = World(rows: map<string, Row>, blobs: set<Blob>, running: bool)

  /** How the calls of one backup turn out, from finding the pod on. Exporting stops after
      `exports` volumes, the failing one perhaps leaving a blob; a cleanup that fails leaves
      any of them. */
  datatype Faults = Faults(found: bool, created: Reply, hook: bool, stop: Reply, exports: nat, torn: bool,
                           completed: Reply, started: Reply, marked: Reply, cleaned: bool, left: set<Blob>)

  /** What is being exported. */
  datatype Plan = Plan(id: string, names: seq<string>, patterns: seq<seq<string>>) {
    ghost predicate Valid()
    {
      |patterns| == |names|
    }
  }

  function Archives(p: Plan, n: nat): set<Blob>
    requires p.Valid() && n <= |p.names|
  {
    set k | 0 <= k < n :: Blob(p.id, p.names[k], p.patterns[k])
  }

  /** How many archives get written. */
  function Exports(p: Plan, f: Faults): (n: nat)
    ensures n <= |p.names|
  {
    if f.exports >= |p.names| then |p.names| else if f.torn then f.exports + 1 else f.exports
  }

  /** The failure path: a row still being created is marked, and its blobs are reaped. */
  function FailRun(w: World, id: string, f: Faults): World
  {
    var creating := id in w.rows && w.rows[id].state.Creating?;
    World(if creating && f.marked.Happened() then w.rows[id := Row(Failing, [])] else w.rows,
          (set b | b in w.blobs && (b.id != id || (!f.cleaned && b in f.left))), w.running)
  }

  function StartRun(w: World, wasRunning: bool, f: Faults): World
  {
    if wasRunning then w.(running := w.running || f.started.Happened()) else w
  }

  /** With the pod stopped: export, record, and start it again whatever happened. */
  function CaptureRun(w: World, p: Plan, wasRunning: bool, f: Faults): (bool, World)
    requires p.Valid()
  {
    var w1 := w.(blobs := w.blobs + Archives(p, Exports(p, f)));
    if f.exports < |p.names| then (false, FailRun(StartRun(w1, wasRunning, f), p.id, f))
    else
      var w2 := if f.completed.Happened() then w1.(rows := w1.rows[p.id := Row(Complete, p.names)]) else w1;
      var w3 := StartRun(w2, wasRunning, f);
      if f.completed.Done? then (true, w3) else (false, FailRun(w3, p.id, f))
  }

  /** A backup that was admitted: whether it succeeds, and what it leaves. */
  function BackupRun(w: World, p: Plan, f: Faults): (bool, World)
    requires p.Valid()
  {
    var w1 := if f.found && f.created.Happened() then w.(rows := w.rows[p.id := Row(Creating, [])]) else w;
    if !f.found || f.created.Failed? then (false, w1)
    else if !f.hook then (false, FailRun(w1, p.id, f))
    else if f.stop.Failed? then (false, FailRun(w1.(running := w.running && !f.stop.happened), p.id, f))
    else CaptureRun(w1.(running := false), p, w.running, f)
  }

  // ----- The pass that reconciles an interrupted backup -----

  /** How the calls of one pass turn out; `known`: the host is still configured, `there`: the
      instance still exists. */
  datatype PassFaults = PassFaults(read: bool, marked: Reply, cleaned: bool, left: set<Blob>, known: bool, there: bool,
                                   started: Reply)

  datatype Verdict = Retry | Settled(ok: bool)

  predicate IsCreating(w: World, id: string)
  {
    id in w.rows && w.rows[id].state.Creating?
  }

  /** Nothing to do without a row or with a complete one; otherwise the row is marked, its
      blobs are reaped and the pod is started, whether it ran before or not. */
  function ReconcileRun(w: World, id: string, g: PassFaults): (Verdict, World)
  {
    if !g.read then (Retry, w)
    else if id !in w.rows then (Settled(false), w)
    else if w.rows[id].state.Complete? then (Settled(true), w)
    else
      var w1 := if IsCreating(w, id) && g.marked.Happened() then w.(rows := w.rows[id := Row(Failing, [])]) else w;
      if g.marked.Failed? then (Retry, w1)
      else
        var w2 := w1.(blobs := set b | b in w.blobs && (b.id != id || (!g.cleaned && b in g.left)));
        if !g.known || !g.there then (Settled(false), w2)
        else (if g.started.Done? then Settled(false) else Retry, w2.(running := w2.running || g.started.Happened()))
  }

  /** A pass has the last word unless it cannot read the row; or there is a row that is not
      complete, and it cannot mark it, or cannot start a pod that is there on a known host.
      Its word is success exactly for a complete row. */
  lemma PassSettlesIff(w: World, id: string, g: PassFaults)
    ensures ReconcileRun(w, id, g).0.Settled? <==>
            && g.read
            && (id in w.rows && !w.rows[id].state.Complete? ==>
                  g.marked.Done? && (g.known && g.there ==> g.started.Done?))
    ensures ReconcileRun(w, id, g).0 == Settled(true) <==> g.read && CompleteRow(w, id)
  {
  }

  /** Which pass starts the pod, marks the row and reaps blobs: one that finds a row that is
      not complete, as far as it gets. The host and the instance matter to the pod only. */
  lemma PassLeaves(w: World, id: string, g: PassFaults)
    ensures var w' := ReconcileRun(w, id, g).1;
            var interrupted := g.read && id in w.rows && !w.rows[id].state.Complete?;
            && (w'.running <==>
                w.running || (interrupted && g.marked.Done? && g.known && g.there && g.started.Happened()))
            && w'.rows == (if interrupted && w.rows[id].state.Creating? && g.marked.Happened()
                           then w.rows[id := Row(Failing, [])] else w.rows)
            && (forall b: Blob :: b in w'.blobs <==>
                  b in w.blobs && (interrupted && g.marked.Done? && b.id == id ==> !g.cleaned && b in g.left))
  {
  }

  // ----- When the pod is back, and when a complete row can be trusted -----

  predicate CompleteRow(w: World, id: string)
  {
    id in w.rows && w.rows[id].state.Complete?
  }

  /** Each volume a row names has its blob. */
  predicate Backed(w: World, p: Plan)
    requires p.Valid()
  {
    Archives(p, |p.names|) <= w.blobs
  }

  /** The pod runs afterwards exactly when it did before and: the run ended before the
      stop, or the stop failed without effect, or the start took effect. */
  lemma PodRunsIff(w: World, p: Plan, f: Faults)
    requires p.Valid()
    ensures BackupRun(w, p, f).1.running <==>
            w.running
              && (f.found && f.created.Done? && f.hook ==>
                    if f.stop.Failed? then !f.stop.happened else f.started.Happened())
  {
    hide Archives;
  }

  /** The run leaves a complete row exactly when recording it took effect. It succeeded
      exactly when that was also reported; otherwise its own failure path reaps the blobs
      of the row it can no longer mark. */
  lemma CompleteRowIff(w: World, p: Plan, f: Faults)
    requires p.Valid() && p.id !in w.rows
    ensures CompleteRow(BackupRun(w, p, f).1, p.id) <==>
            f.found && f.created.Done? && f.hook && f.stop.Done? && f.exports >= |p.names| && f.completed.Happened()
    ensures BackupRun(w, p, f).0 <==> CompleteRow(BackupRun(w, p, f).1, p.id) && f.completed.Done?
    ensures BackupRun(w, p, f).0 ==> Backed(BackupRun(w, p, f).1, p)
  {
    hide Archives;
  }

  /** How far a run got before anything was reported as failed. */
  predicate Began(f: Faults)
  {
    f.found && f.created.Done?
  }

  predicate ExportedAll(p: Plan, f: Faults)
  {
    Began(f) && f.hook && f.stop.Done? && f.exports >= |p.names|
  }

  /** The row a run leaves: complete if recording it took effect; else marked failed, if it
      was begun and marking took effect; else still being created, if creating it did. */
  lemma RowAfterRun(w: World, p: Plan, f: Faults)
    requires p.Valid() && p.id !in w.rows
    ensures var w' := BackupRun(w, p, f).1;
            && (p.id in w'.rows <==> f.found && f.created.Happened())
            && (p.id in w'.rows ==>
                  w'.rows[p.id] == if ExportedAll(p, f) && f.completed.Happened() then Row(Complete, p.names)
                                   else if Began(f) && f.marked.Happened() then Row(Failing, [])
                                   else Row(Creating, []))
  {
    hide Archives;
  }

  /** The archive of the `k`th volume, if exporting got that far, or failed there after
      writing some of it. */
  ghost predicate WritesBlob(p: Plan, f: Faults, k: nat, b: Blob)
    requires p.Valid()
  {
    k < |p.names| && (k < f.exports || (k == f.exports && f.torn)) && b == Blob(p.id, p.names[k], p.patterns[k])
  }

  /** Of a run that gets to exporting, the blobs left are what it wrote: all of it if it
      succeeds, and otherwise what a failing cleanup leaves of it. */
  lemma BlobsAfterRun(w: World, p: Plan, f: Faults, b: Blob)
    requires p.Valid() && Began(f) && f.hook && f.stop.Done? && b.id == p.id && b !in w.blobs
    ensures b in BackupRun(w, p, f).1.blobs <==>
            && (exists k: nat :: WritesBlob(p, f, k, b))
            && (BackupRun(w, p, f).0 || (!f.cleaned && b in f.left))
  {
    assert b in Archives(p, Exports(p, f)) <==> exists k: nat :: WritesBlob(p, f, k, b) by {
      if k: nat :| WritesBlob(p, f, k, b) {
        assert k < Exports(p, f);
      }
      if b in Archives(p, Exports(p, f)) {
        var k :| 0 <= k < Exports(p, f) && b == Blob(p.id, p.names[k], p.patterns[k]);
        assert WritesBlob(p, f, k, b);
      }
    }
    hide Archives, Exports, WritesBlob;
  }

  /** A run that fails after its row was created leaves no blob, if its cleanup succeeds. */
  lemma FailureCleansUp(w: World, p: Plan, f: Faults, b: Blob)
    requires p.Valid() && p.id !in w.rows && Began(f) && f.cleaned && !BackupRun(w, p, f).0
    ensures b in BackupRun(w, p, f).1.blobs ==> b.id != p.id
  {
    hide Archives;
  }

  /** Other backups' rows and blobs are left alone. */
  lemma OthersUntouched(w: World, p: Plan, f: Faults)
    requires p.Valid() && p.id !in w.rows
    ensures var w' := BackupRun(w, p, f).1;
            && w'.rows - {p.id} == w.rows
            && forall b: Blob :: b.id != p.id ==> (b in w'.blobs <==> b in w.blobs)
  {
    var n := Exports(p, f);
    assert forall b: Blob :: b in Archives(p, n) ==> b.id == p.id;
    hide Archives;
  }

  /** Which replies can be lost: the engine's to a stop, the store's to a write. */
  datatype Env = Env(stopLossy: bool, storeLossy: bool)

  predicate Admits(e: Env, f: Faults)
  {
    && (f.stop.Failed? && f.stop.happened ==> e.stopLossy)
    && (f.completed.Failed? && f.completed.happened ==> e.storeLossy)
  }

  /** A pod that ran before runs afterwards, as long as starting it does not fail. */
  ghost predicate BringsPodBack(e: Env)
  {
    forall w: World, p: Plan, f :: p.Valid() && Admits(e, f) && w.running && f.started.Done? ==>
      BackupRun(w, p, f).1.running
  }

  /** A complete row always has its blobs. */
  ghost predicate RowsAreBacked(e: Env)
  {
    forall w: World, p: Plan, f :: p.Valid() && Admits(e, f) && p.id !in w.rows ==>
      (CompleteRow(BackupRun(w, p, f).1, p.id) ==> Backed(BackupRun(w, p, f).1, p))
  }

  /** Only a successful run leaves a complete row. */
  ghost predicate FailureLeavesNoRow(e: Env)
  {
    forall w: World, p: Plan, f :: p.Valid() && Admits(e, f) && p.id !in w.rows && !BackupRun(w, p, f).0 ==>
      !CompleteRow(BackupRun(w, p, f).1, p.id)
  }

  const QUIET := Faults(true, Done, true, Done, 1, false, Done, Done, Done, true, {})

  /** A stop that took effect but reported an error: the pod stays down, with no start
      attempted. */
  lemma LostStopLeavesPodDown(w: World, p: Plan)
    requires p.Valid() && w.running
    ensures BackupRun(w, p, QUIET.(stop := Failed(true))).1.running == false
  {
    hide Archives;
  }

  /** A completion that took effect but reported an error: the failure path cannot unmark
      the complete row, and deletes the archive it stands for. */
  lemma LostCompletionLeavesHollowRow(w: World, id: string, volume: string)
    requires id !in w.rows
    ensures var p, f := Plan(id, [volume], [[]]), QUIET.(completed := Failed(true));
            var (ok, w') := BackupRun(w, p, f);
            !ok && CompleteRow(w', id) && w'.rows[id].volumes == [volume] && !Backed(w', p)
  {
    var p, f := Plan(id, [volume], [[]]), QUIET.(completed := Failed(true));
    var w' := BackupRun(w, p, f).1;
    assert Blob(id, p.names[0], p.patterns[0]) in Archives(p, 1) && Blob(id, volume, []) !in w'.blobs;
  }

  lemma PodBackIff(e: Env)
    ensures BringsPodBack(e) <==> !e.stopLossy
  {
    hide BackupRun;
    if e.stopLossy {
      var w, p, f := World(map[], {}, true), Plan("", [], []), QUIET.(stop := Failed(true));
      LostStopLeavesPodDown(w, p);
      assert Admits(e, f) && p.Valid();
    } else {
      forall w: World, p: Plan, f | p.Valid() && Admits(e, f) && w.running && f.started.Done?
        ensures BackupRun(w, p, f).1.running
      {
        PodRunsIff(w, p, f);
      }
    }
  }

  lemma CompleteRowsTrustedIff(e: Env)
    ensures RowsAreBacked(e) <==> !e.storeLossy
    ensures FailureLeavesNoRow(e) <==> !e.storeLossy
  {
    hide BackupRun, CompleteRow, Backed;
    if e.storeLossy {
      var w, p, f := World(map[], {}, true), Plan("", [""], [[]]), QUIET.(completed := Failed(true));
      LostCompletionLeavesHollowRow(w, "", "");
      assert Admits(e, f) && p.Valid();
    } else {
      forall w: World, p: Plan, f | p.Valid() && Admits(e, f) && p.id !in w.rows
        ensures CompleteRow(BackupRun(w, p, f).1, p.id) ==> BackupRun(w, p, f).0 && Backed(BackupRun(w, p, f).1, p)
      {
        CompleteRowIff(w, p, f);
      }
    }
  }

  // ----- The job itself -----

  class Service {
    var rows: map<string, Row>
    var blobs: set<Blob>
    var running: bool

    function View(): World
      reads this
    {
      World(rows, blobs, running)
    }

    constructor (running: bool)
      ensures View() == World(map[], {}, running)
    {
      rows, blobs, this.running := map[], {}, running;
    }

    /** Marks the row failed and reaps partial blobs, each as far as it succeeds. A row that
        was completed stays so, whatever happens to its blobs. */
    method Fail(id: string, f: Faults)
      modifies `rows, `blobs
      ensures View() == FailRun(old(View()), id, f)
      ensures CompleteRow(View(), id) <==> old(CompleteRow(View(), id))
      ensures f.cleaned ==> forall b :: b in blobs ==> b.id != id
    {
      if f.marked.Happened() && id in rows && rows[id].state.Creating? {
        rows := rows[id := Row(Failing, [])];
      }
      blobs := set b | b in blobs && (b.id != id || (!f.cleaned && b in f.left));
    }

    method Restart(wasRunning: bool, f: Faults)
      modifies `running
      ensures View() == StartRun(old(View()), wasRunning, f)
    {
      if !wasRunning {
        return;
      }
      if f.started.Happened() {
        running := true;
      }
    }

    /** Writes each volume's blob in turn, stopping at the first that fails. */
    method ExportAll(p: Plan, f: Faults) returns (ok: bool)
      requires p.Valid()
      modifies `blobs
      ensures ok <==> f.exports >= |p.names|
      ensures blobs == old(blobs) + Archives(p, Exports(p, f))
    {
      for k := 0 to |p.names|
        invariant k <= f.exports && blobs == old(blobs) + Archives(p, k)
      {
        ArchivesNext(p, k);
        if k == f.exports {
          if f.torn {
            blobs := blobs + {Blob(p.id, p.names[k], p.patterns[k])};
          }
          return false;
        }
        blobs := blobs + {Blob(p.id, p.names[k], p.patterns[k])};
      }
      return true;
    }

    method Capture(p: Plan, wasRunning: bool, f: Faults) returns (ok: bool)
      requires p.Valid()
      modifies this
      ensures (ok, View()) == CaptureRun(old(View()), p, wasRunning, f)
    {
      var exported := ExportAll(p, f);
      if !exported {
        Restart(wasRunning, f);
        Fail(p.id, f);
        return false;
      }
      if f.completed.Happened() {
        rows := rows[p.id := Row(Complete, p.names)];
      }
      if f.completed.Failed? {
        Restart(wasRunning, f);
        Fail(p.id, f);
        return false;
      }
      Restart(wasRunning, f);
      return true;
    }

    /** A refused request changes nothing, and an admitted one is a `BackupRun`. On success
        the complete row names exactly the volumes the scope stands for, each with a blob
        written under the exclude patterns in effect; an empty one means there was nothing
        to walk past. */
    method Backup(id: string, i: Instance, h: Host, history: seq<BackupRow>, scope: seq<string>, f: Faults)
        returns (ok: bool, ghost admitted: bool, ghost p: Plan)
      requires id !in rows
      modifies this
      ensures p.Valid() && p.id == id
      ensures (ok, View()) == if admitted then BackupRun(old(View()), p, f) else (false, old(View()))
      ensures admitted <==> Admitted(i, h, history, scope)
      ensures admitted ==> forall v :: v in p.names <==> v in Fulls(i, Recorded(i, h, scope))
      ensures admitted ==> Filtering(i, p.names, p.patterns) && (DistinctVolumes(i) ==> Distinct(p.names))
      ensures ok ==> CompleteRow(View(), id) && rows[id].volumes == p.names && Allowed(i, h, history, scope)
      ensures ok ==> forall s :: s in Recorded(i, h, scope) ==>
              Blob(id, Full(i, s), EffectiveMeta(i, s).exclude) in blobs
      ensures ok && p.names == [] ==> scope == [] && Holding(i, h) == {}
      ensures rows - {id} == old(rows) && forall b: Blob :: b.id != id ==> (b in blobs <==> b in old(blobs))
      ensures running ==> old(running)
    {
      hide Recorded, Resolved, Fulls, Full, EffectiveMeta, Distinct, DistinctVolumes, Holding, UnscopedAllowed,
           ScopedAllowed, Answering, Filtering, BackupRun;
      p := Plan(id, [], []);
      admitted := false;
      var check := CheckBackupable(i, h, history, scope, false);
      if !check.Accepted? {
        return false, false, p;
      }
      admitted := true;
      var names, patterns := ExportSet(i, h, scope, check.vols, check.meta);
      EmptyMeansNothingHeld(i, h, history, scope, names);
      var plan := Plan(id, names, patterns);
      p := plan;
      ok := Run(plan, f);
      CompleteRowIff(old(View()), p, f);
      PodRunsIff(old(View()), p, f);
      OthersUntouched(old(View()), p, f);
      if ok {
        AllBlobs(id, i, Recorded(i, h, scope), p, blobs);
      }
    }

    /** One pass over an interrupted backup. It answers success only for a complete row, and
        then touches nothing; it gives up only on a row it has not left marked. */
    method ReconcileBackup(id: string, g: PassFaults) returns (v: Verdict)
      modifies this
      ensures (v, View()) == ReconcileRun(old(View()), id, g)
      ensures v == Settled(true) ==> CompleteRow(View(), id) && View() == old(View())
      ensures v == Settled(false) ==> !CompleteRow(View(), id) && !IsCreating(View(), id)
    {
      if !g.read {
        return Retry;
      }
      if id !in rows {
        return Settled(false);
      }
      if rows[id].state.Complete? {
        return Settled(true);
      }
      if rows[id].state.Creating? && g.marked.Happened() {
        rows := rows[id := Row(Failing, [])];
      }
      if g.marked.Failed? {
        return Retry;
      }
      blobs := set b | b in blobs && (b.id != id || (!g.cleaned && b in g.left));
      if !g.known {
        return Settled(false);
      }
      if !g.there {
        return Settled(false);
      }
      if g.started.Happened() {
        running := true;
      }
      return if g.started.Failed? then Retry else Settled(false);
    }

    /** From the row on. */
    method Run(plan: Plan, f: Faults) returns (ok: bool)
      requires plan.Valid()
      modifies this
      ensures (ok, View()) == BackupRun(old(View()), plan, f)
      ensures ok ==> plan.id in rows && rows[plan.id].volumes == plan.names
    {
      if !f.found {
        return false;
      }
      var wasRunning := running;
      if f.created.Happened() {
        rows := rows[plan.id := Row(Creating, [])];
      }
      if f.created.Failed? {
        return false;
      }
      if !f.hook {
        Fail(plan.id, f);
        return false;
      }
      if f.stop.Failed? {
        running := running && !f.stop.happened;
        Fail(plan.id, f);
        return false;
      }
      running := false;
      ok := Capture(plan, wasRunning, f);
    }
  }

  lemma ArchivesNext(p: Plan, k: nat)
    requires p.Valid() && k < |p.names|
    ensures Archives(p, k + 1) == Archives(p, k) + {Blob(p.id, p.names[k], p.patterns[k])}
  {
  }

  lemma AllBlobs(id: string, i: Instance, recorded: set<string>, p: Plan, blobs: set<Blob>)
    requires p.Valid() && p.id == id
    requires Filtering(i, p.names, p.patterns) && forall v :: v in p.names <==> v in Fulls(i, recorded)
    requires Archives(p, |p.names|) <= blobs
    ensures forall s :: s in recorded ==> Blob(id, Full(i, s), EffectiveMeta(i, s).exclude) in blobs
  {
    forall s | s in recorded ensures Blob(id, Full(i, s), EffectiveMeta(i, s).exclude) in blobs {
      assert Full(i, s) in p.names;
      var k :| 0 <= k < |p.names| && p.names[k] == Full(i, s);
      assert Blob(id, p.names[k], p.patterns[k]) in Archives(p, |p.names|);
    }
  }

  lemma EmptyMeansNothingHeld(i: Instance, h: Host, history: seq<BackupRow>, scope: seq<string>, names: seq<string>)
    requires Allowed(i, h, history, scope)
    requires forall v :: v in names <==> v in Fulls(i, Recorded(i, h, scope))
    ensures names == [] ==> scope == [] && Holding(i, h) == {}
  {
    if s :| s in Recorded(i, h, scope) {
      assert Full(i, s) in names;
    }
    if scope != [] {
      assert scope[0] in Recorded(i, h, scope);
    }
  }
}
