/** The scheduler's dedupe: a request is answered "already handled" when a backup in
    flight covers its scope. */
module BackupDedupe {
  import opened BackupScope
  import opened Backups

  /** An empty scope stands for every volume not vetoed. */
  predicate Covers(inFlight: seq<string>, want: seq<string>)
  {
    inFlight == [] || (want != [] && forall v :: v in want ==> v in inFlight)
  }

  method ScopeCovers(inFlight: seq<string>, want: seq<string>) returns (yes: bool)
    ensures yes <==> Covers(inFlight, want)
  {
    if |inFlight| == 0 {
      return true;
    }
    if |want| == 0 {
      return false;
    }
    var have: set<string> := {};
    for k := 0 to |inFlight|
      invariant have == set v | v in inFlight[..k]
    {
      have := have + {inFlight[k]};
    }
    for k := 0 to |want|
      invariant forall j :: 0 <= j < k ==> want[j] in inFlight
    {
      if want[k] !in have {
        assert want[k] in want;
        return false;
      }
    }
    return true;
  }

  lemma CoversTransitive(a: seq<string>, b: seq<string>, c: seq<string>)
    ensures Covers(a, a)
    ensures Covers(a, b) && Covers(b, c) ==> Covers(a, c)
  {
  }

  /** The covering scope records everything the covered one would. */
  lemma CoversRecords(i: Instance, h: Host, history: seq<BackupRow>, a: seq<string>, b: seq<string>)
    requires Covers(a, b) && Allowed(i, h, history, b)
    ensures Recorded(i, h, b) <= Recorded(i, h, a)
  {
  }

  ghost predicate AlwaysRecordsMore(a: seq<string>, b: seq<string>)
  {
    forall i, h, history :: Allowed(i, h, history, a) && Allowed(i, h, history, b) ==>
      Recorded(i, h, b) <= Recorded(i, h, a)
  }

  function Concat(ss: seq<string>): string
  {
    if ss == [] then "" else Concat(ss[..|ss| - 1]) + ss[|ss| - 1]
  }

  lemma {:induction false} NoLongerThanConcat(ss: seq<string>, s: string)
    requires s in ss
    ensures |s| <= |Concat(ss)|
  {
    var k := |ss| - 1;
    if s != ss[k] {
      assert s in ss[..k];
      NoLongerThanConcat(ss[..k], s);
    }
  }

  /** An instance that declares these volumes, unvetoed and all present. */
  function Plain(names: seq<string>): Instance
  {
    Instance("", seq(|names|, k requires 0 <= k < |names| => Declared(names[k], NO_META, false)), Unknown, map[])
  }

  lemma {:induction false} PlainMeta(vs: seq<Declared>)
    requires forall k :: 0 <= k < |vs| ==> vs[k].meta == NO_META
    ensures forall s :: s in DeclaredMeta(vs) ==> DeclaredMeta(vs)[s] == NO_META
  {
    if vs == [] {
    } else {
      PlainMeta(vs[..|vs| - 1]);
    }
  }

  lemma PlainHolds(names: seq<string>, h: Host, scope: seq<string>)
    requires names != [] && h.present == set s | s in names
    ensures Captured(Plain(names), h) == set s | s in names
    ensures UnscopedAllowed(Plain(names), h, [])
    ensures (forall s :: s in scope ==> s in names) ==> ScopedAllowed(Plain(names), h, scope)
  {
    var i := Plain(names);
    DeclaredMetaKeys(i.volumes);
    PlainMeta(i.volumes);
    forall s ensures s in DeclaredMeta(i.volumes) <==> s in names {
      if s in names {
        var k :| 0 <= k < |names| && names[k] == s;
        assert i.volumes[k].name == s;
      }
    }
    assert forall s :: Full(i, s) == s;
    assert !IsNone("");
    assert forall s :: s in names ==> !Vetoed(i, s);
    assert names[0] in Captured(i, h) && names[0] in KnownNames(i);
  }

  lemma NotInConcat(ss: seq<string>)
    ensures Concat(ss) + "x" !in ss
  {
    if Concat(ss) + "x" in ss {
      NoLongerThanConcat(ss, Concat(ss) + "x");
    }
  }

  /** A host on which a scope that is not covered asks for more. */
  lemma UncoveredAsksForMore(a: seq<string>, b: seq<string>) returns (i: Instance, h: Host)
    requires !Covers(a, b)
    ensures Allowed(i, h, [], a) && Allowed(i, h, [], b) && !(Recorded(i, h, b) <= Recorded(i, h, a))
  {
    hide *;
    var extra := Concat(a) + "x";
    NotInConcat(a);
    var names := a + b + [extra];
    assert extra == names[|a + b|];
    assert forall s :: s in a || s in b ==> s in names;
    h := Host(set s | s in names, {});
    PlainHolds(names, h, a);
    PlainHolds(names, h, b);
    i := Plain(names);
    UncoveredAt(a, b, i, h, extra);
  }

  lemma UncoveredAt(a: seq<string>, b: seq<string>, i: Instance, h: Host, extra: string)
    requires !Covers(a, b) && extra in Captured(i, h) && extra !in a
    requires UnscopedAllowed(i, h, []) && ScopedAllowed(i, h, a) && ScopedAllowed(i, h, b)
    ensures Allowed(i, h, [], a) && Allowed(i, h, [], b) && !(Recorded(i, h, b) <= Recorded(i, h, a))
  {
    hide Captured, ScopedAllowed, UnscopedAllowed;
    if b == [] {
      assert extra in Recorded(i, h, b) && extra !in Recorded(i, h, a);
    } else {
      var v :| v in b && v !in a;
      assert v in Recorded(i, h, b) && v !in Recorded(i, h, a);
    }
  }

  /** The coverage test is exact: it holds precisely when the job in flight records at
      least what was asked, for every instance and host that admit both. */
  lemma CoversIff(a: seq<string>, b: seq<string>)
    ensures Covers(a, b) <==> AlwaysRecordsMore(a, b)
  {
    hide Allowed, Recorded;
    if Covers(a, b) {
      forall i, h, history | Allowed(i, h, history, a) && Allowed(i, h, history, b)
        ensures Recorded(i, h, b) <= Recorded(i, h, a)
      {
        CoversRecords(i, h, history, a, b);
      }
    } else {
      var i, h := UncoveredAsksForMore(a, b);
    }
  }

  // ----- The job queue -----

  datatype Mode = Snapshot | Live

  datatype JobState = Queued | Running | Reconciling | Terminal

  datatype Args = Unreadable | Args(target: string, volumes: seq<string>, mode: Mode)

  datatype Job = Job(state: JobState, args: Args)

  predicate Targets(j: Job, target: string)
  {
    j.args.Args? && j.args.target == target
  }

  predicate CoveringJob(j: Job, target: string, want: seq<string>)
  {
    (j.state.Queued? || j.state.Running?) && Targets(j, target) && Covers(j.args.volumes, want)
  }

  predicate ReconcilingJob(j: Job, target: string)
  {
    j.state.Reconciling? && Targets(j, target)
  }

  datatype Scope = Everything | Only(volumes: seq<string>)

  function Volumes(scope: Scope): seq<string>
  {
    if scope.Everything? then [] else scope.volumes
  }

  /** An explicitly empty scope asks for nothing and is an error. */
  ghost predicate WellScoped(i: Instance, scope: Scope)
  {
    scope != Only([]) && DeclaredAllowed(i, Volumes(scope))
  }

  predicate AnyCovering(jobs: seq<Job>, target: string, want: seq<string>)
  {
    exists k :: 0 <= k < |jobs| && CoveringJob(jobs[k], target, want)
  }

  predicate AnyReconciling(jobs: seq<Job>, target: string)
  {
    exists k :: 0 <= k < |jobs| && ReconcilingJob(jobs[k], target)
  }

  datatype Answer = Enqueued | Covered | Deferred | BadScope | HostError

  class Controller {
    var jobs: seq<Job>

    constructor ()
      ensures jobs == []
    {
      jobs := [];
    }

    method BackupInFlightCovering(target: string, want: seq<string>) returns (yes: bool)
      ensures yes <==> AnyCovering(jobs, target, want)
    {
      for k := 0 to |jobs|
        invariant forall j :: 0 <= j < k ==> !CoveringJob(jobs[j], target, want)
      {
        var j := jobs[k];
        if (j.state.Queued? || j.state.Running?) && j.args.Args? && j.args.target == target {
          var covers := ScopeCovers(j.args.volumes, want);
          if covers {
            assert CoveringJob(jobs[k], target, want);
            return true;
          }
        }
      }
      return false;
    }

    method BackupReconciling(target: string) returns (yes: bool)
      ensures yes <==> AnyReconciling(jobs, target)
    {
      for k := 0 to |jobs|
        invariant forall j :: 0 <= j < k ==> !ReconcilingJob(jobs[j], target)
      {
        if ReconcilingJob(jobs[k], target) {
          return true;
        }
      }
      return false;
    }

    /** A request is dropped as handled only when a queued or running job covers it and
        no crashed one is being reconciled; then, and whenever it is refused, nothing is
        enqueued. A bad scope is reported even while a backup is in flight. */
    method EnqueueBackup(target: string, i: Instance, h: Host, history: seq<BackupRow>, scope: Scope, mode: Mode)
        returns (r: Answer)
      modifies this
      ensures r.Covered? <==>
              WellScoped(i, scope) && !AnyReconciling(old(jobs), target)
                && AnyCovering(old(jobs), target, Volumes(scope))
      ensures r.Deferred? <==> WellScoped(i, scope) && AnyReconciling(old(jobs), target)
      ensures r.Enqueued? <==>
              && WellScoped(i, scope) && !AnyReconciling(old(jobs), target)
              && !AnyCovering(old(jobs), target, Volumes(scope)) && Admitted(i, h, history, Volumes(scope))
      ensures r.Enqueued? ==> jobs == old(jobs) + [Job(Queued, Args(target, Volumes(scope), mode))]
      ensures r.HostError? ==> !Answering(i, h, Volumes(scope))
      ensures r.BadScope? ==> !WellScoped(i, scope) || Answering(i, h, Volumes(scope))
      ensures !r.Enqueued? ==> jobs == old(jobs)
      ensures r.Covered? ==>
              forall j, now, later, rows :: j in jobs && CoveringJob(j, target, Volumes(scope)) ==>
                (Honoured(j.args, now, later, rows, Volumes(scope)) <==>
                 CanHonour(j.args, now, later, rows, Volumes(scope)))
    {
      hide Honoured, CanHonour;
      if scope.Only? && |scope.volumes| == 0 {
        return BadScope;
      }
      var volumes := Volumes(scope);
      var declared := CheckBackupable(i, h, history, volumes, true);
      if !declared.Accepted? {
        return BadScope;
      }
      var reconciling := BackupReconciling(target);
      if reconciling {
        return Deferred;
      }
      var covered := BackupInFlightCovering(target, volumes);
      if covered {
        forall j, now, later, rows | j in jobs && CoveringJob(j, target, volumes)
          ensures Honoured(j.args, now, later, rows, volumes) <==> CanHonour(j.args, now, later, rows, volumes)
        {
          CoveredRequestHonouredIff(j, target, volumes, now, later, rows);
        }
        return Covered;
      }
      var check := CheckBackupable(i, h, history, volumes, false);
      if !check.Accepted? {
        return if check.Refused? then BadScope else HostError;
      }
      jobs := jobs + [Job(Queued, Args(target, volumes, mode))];
      return Enqueued;
    }
  }

  /** A request is answered as handled by a job made for the very same request exactly as
      long as that job is queued or running, and never by one for another instance. */
  lemma SameRequestCoveredIff(state: JobState, target: string, other: string, scope: Scope, mode: Mode)
    ensures AnyCovering([Job(state, Args(target, Volumes(scope), mode))], other, Volumes(scope)) <==>
            target == other && (state.Queued? || state.Running?)
  {
    var jobs := [Job(state, Args(target, Volumes(scope), mode))];
    CoversTransitive(Volumes(scope), Volumes(scope), Volumes(scope));
    assert CoveringJob(jobs[0], other, Volumes(scope)) <==> target == other && (state.Queued? || state.Running?);
  }

  /** A request is put off exactly when some job for the same instance, of whatever scope and
      mode, is being reconciled; and a job whose arguments cannot be read concerns nobody. */
  lemma PutOffIff(jobs: seq<Job>, target: string)
    ensures AnyReconciling(jobs, target) <==>
            exists v: seq<string>, m: Mode :: Job(Reconciling, Args(target, v, m)) in jobs
  {
    if k :| 0 <= k < |jobs| && ReconcilingJob(jobs[k], target) {
      assert Job(Reconciling, Args(target, jobs[k].args.volumes, jobs[k].args.mode)) in jobs;
    }
    if v: seq<string>, m: Mode :| Job(Reconciling, Args(target, v, m)) in jobs {
      var k :| 0 <= k < |jobs| && jobs[k] == Job(Reconciling, Args(target, v, m));
      assert ReconcilingJob(jobs[k], target);
    }
  }

  // ----- Is the answer honoured? -----

  /** The first declaration of the name decides. */
  predicate LiveCapable(vs: seq<Declared>, name: string)
  {
    vs != [] && if vs[0].name == name then vs[0].live else LiveCapable(vs[1..], name)
  }

  predicate FirstOf(vs: seq<Declared>, k: nat, name: string)
  {
    k < |vs| && vs[k].name == name && forall j :: 0 <= j < k ==> vs[j].name != name
  }

  lemma {:induction false} LiveCapableIff(vs: seq<Declared>, name: string)
    ensures LiveCapable(vs, name) <==> exists k: nat :: FirstOf(vs, k, name) && vs[k].live
  {
    if vs == [] {
    } else {
      LiveCapableIff(vs[1..], name);
      assert forall k :: 0 <= k < |vs[1..]| ==> vs[1..][k] == vs[k + 1];
      if k: nat :| FirstOf(vs[1..], k, name) && vs[1..][k].live {
        assert vs[0].name != name ==> FirstOf(vs, k + 1, name);
      }
      if k: nat :| FirstOf(vs, k, name) && vs[k].live {
        assert k > 0 ==> FirstOf(vs[1..], k - 1, name);
      }
    }
  }

  /** What a job records, if it gets that far: a live-mode one refuses any scope but a
      single volume that declares how to do it. */
  ghost predicate MayRecord(j: Args, i: Instance, h: Host, history: seq<BackupRow>, recorded: set<string>)
    requires j.Args?
  {
    if j.mode.Live? then |j.volumes| == 1 && LiveCapable(i.volumes, j.volumes[0]) && recorded == {j.volumes[0]}
    else Allowed(i, h, history, j.volumes) && recorded == Recorded(i, h, j.volumes)
  }

  /** Some record the job makes holds everything that was asked for. */
  ghost predicate Honoured(j: Args, i: Instance, h: Host, history: seq<BackupRow>, want: seq<string>)
    requires j.Args?
  {
    exists recorded :: MayRecord(j, i, h, history, recorded) && Recorded(i, h, want) <= recorded
  }

  /** A live-mode job has a one-volume scope whose volume can be backed up live; a
      snapshot one is admitted, and every volume asked for is still known, not vetoed and
      exists. */
  ghost predicate CanHonour(j: Args, i: Instance, h: Host, history: seq<BackupRow>, want: seq<string>)
    requires j.Args?
  {
    if j.mode.Live? then |j.volumes| == 1 && LiveCapable(i.volumes, j.volumes[0])
    else
      && Allowed(i, h, history, j.volumes)
      && forall s :: s in want ==> s in KnownNames(i) && !Vetoed(i, s) && Full(i, s) in h.present
  }

  /** A job judges its volumes by the template, rows and host it finds when it runs, while a
      request it covers was checked against the declaration of the moment only, and not
      against the job's mode; so the job records what was asked for exactly when
      `CanHonour` says so of what it finds. */
  lemma CoveredRequestHonouredIff(j: Job, target: string, want: seq<string>, now: Instance, h: Host,
                                  history: seq<BackupRow>)
    requires CoveringJob(j, target, want)
    ensures Honoured(j.args, now, h, history, want) <==> CanHonour(j.args, now, h, history, want)
  {
    hide Vetoed, LiveCapable, UnscopedAllowed;
    var a := j.args;
    if CanHonour(a, now, h, history, want) {
      var recorded := if a.mode.Live? then {a.volumes[0]} else Recorded(now, h, a.volumes);
      assert MayRecord(a, now, h, history, recorded);
    }
    if Honoured(a, now, h, history, want) && a.mode.Snapshot? {
      forall s | s in want ensures s in KnownNames(now) && !Vetoed(now, s) && Full(now, s) in h.present {
        assert s in Recorded(now, h, want);
        assert s in Recorded(now, h, a.volumes);
      }
    }
  }

  /** Two volumes are declared and the host has one. */
  lemma HalfPresent(a: string, b: string, i: Instance, h: Host)
    requires a != b && i == Plain([a, b]) && h == Host({a}, {})
    ensures Captured(i, h) == {a} && UnscopedAllowed(i, h, []) && DeclaredAllowed(i, [b])
  {
    assert i.volumes == [Declared(a, NO_META, false), Declared(b, NO_META, false)];
    DeclaredMetaKeys(i.volumes);
    PlainMeta(i.volumes);
    assert i.volumes[0].name == a && i.volumes[1].name == b;
    assert !IsNone("");
    assert Full(i, a) == a && Full(i, b) == b;
    assert a in KnownNames(i) && !Vetoed(i, a);
  }

  /** An unscoped snapshot job swallows a request for a declared volume the host does not
      have, and succeeds without it. */
  lemma AbsentVolumeSwallowed(target: string, a: string, b: string) returns (j: Job, i: Instance, h: Host)
    requires a != b
    ensures WellScoped(i, Only([b])) && CoveringJob(j, target, [b])
    ensures MayRecord(j.args, i, h, [], {a})
    ensures !Honoured(j.args, i, h, [], [b])
  {
    j := Job(Running, Args(target, [], Snapshot));
    i, h := Plain([a, b]), Host({a}, {});
    HalfPresent(a, b, i, h);
    hide Captured, UnscopedAllowed, DeclaredAllowed, Plain;
    assert b in Recorded(i, h, [b]);
  }

  /** `Plain([a, b])` with its second volume marked `none` by an edit. */
  function SecondVetoed(a: string, b: string): Instance
  {
    Plain([a, b]).(volumes := [Declared(a, NO_META, false), Declared(b, VolMeta("none", []), false)])
  }

  lemma TwoDeclared(a: string, b: string, vs: seq<Declared>)
    requires a != b && |vs| == 2 && vs[0].name == a && vs[1].name == b
    ensures DeclaredMeta(vs) == map[a := vs[0].meta, b := vs[1].meta]
  {
    assert vs[..1][..0] == [] && vs[..1][0] == vs[0];
    assert DeclaredMeta(vs[..1]) == map[a := vs[0].meta];
  }

  lemma SecondNotCaptured(a: string, b: string, now: Instance, h: Host)
    requires a != b && now == SecondVetoed(a, b) && h == Host({a, b}, {})
    ensures Captured(now, h) == {a} && UnscopedAllowed(now, h, [])
  {
    TwoDeclared(a, b, now.volumes);
    assert !IsNone("") && IsNone("none");
    assert Full(now, a) == a && Full(now, b) == b;
    hide DeclaredMeta, IsNone, Full;
    assert a in KnownNames(now) && !Vetoed(now, a) && Vetoed(now, b);
  }

  /** So it does one for a volume that is there when the request is answered and that an
      edit vetoes before the job starts. */
  lemma VetoedSinceSwallowed(target: string, a: string, b: string)
      returns (j: Job, i: Instance, now: Instance, h: Host)
    requires a != b
    ensures WellScoped(i, Only([b])) && CoveringJob(j, target, [b]) && Allowed(i, h, [], [b])
    ensures now.prefix == i.prefix && DeclaredNames(now) == DeclaredNames(i)
    ensures MayRecord(j.args, now, h, [], {a})
    ensures !Honoured(j.args, now, h, [], [b])
  {
    j := Job(Running, Args(target, [], Snapshot));
    i, now, h := Plain([a, b]), SecondVetoed(a, b), Host({a, b}, {});
    BothPresent(a, b, i, now, h);
    SecondNotCaptured(a, b, now, h);
    assert DeclaredAllowed(i, [b]);
    hide Captured, UnscopedAllowed, ScopedAllowed, DeclaredAllowed, Plain, SecondVetoed, DeclaredMeta, Vetoed;
    assert b in Recorded(now, h, [b]);
  }

  lemma BothPresent(a: string, b: string, i: Instance, now: Instance, h: Host)
    requires a != b && i == Plain([a, b]) && now == SecondVetoed(a, b) && h == Host({a, b}, {})
    ensures ScopedAllowed(i, h, [b]) && DeclaredNames(now) == DeclaredNames(i)
  {
    assert i.volumes == [Declared(a, NO_META, false), Declared(b, NO_META, false)];
    TwoDeclared(a, b, i.volumes);
    TwoDeclared(a, b, now.volumes);
    assert !IsNone("") && Full(i, b) == b;
    hide DeclaredMeta, IsNone, Full;
  }

  /** And an unscoped live-mode job in flight swallows every request for its instance and
      can never record anything. */
  lemma UnscopedLiveJobSwallowsRequests(target: string, want: seq<string>)
    ensures CoveringJob(Job(Running, Args(target, [], Live)), target, want)
    ensures forall i, h, history, recorded :: !MayRecord(Args(target, [], Live), i, h, history, recorded)
  {
  }
}
