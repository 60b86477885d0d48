/** How far the no-loss guarantee reaches. Where it ends, a run that loses data and the
    exact condition under which none does. */
module MigrationExact {
  import opened Manifests
  import opened Migration
  import opened MigrationSafety

  ghost predicate SafeRun(run: seq<State>)
  {
    forall i :: 0 <= i < |run| ==> Safe(run[i])
  }

  /** Any stretch of steps, from any state. */
  ghost predicate IsPath(declared: set<string>, path: seq<State>)
  {
    path != [] && forall i :: 0 < i < |path| ==> Next(declared, path[i - 1], path[i])
  }

  function Last(path: seq<State>): State
    requires path != []
  {
    path[|path| - 1]
  }

  lemma Extend(declared: set<string>, path: seq<State>, s: State) returns (more: seq<State>)
    requires IsPath(declared, path) && Next(declared, Last(path), s)
    ensures IsPath(declared, more) && more[0] == path[0] && Last(more) == s && more == path + [s]
  {
    more := path + [s];
  }

  // ----- How recovery comes to reap the source -----

  /** Recovery finds the destination ready. */
  lemma ToSpecCheck(declared: set<string>, path: seq<State>) returns (more: seq<State>)
    requires IsPath(declared, path) && Last(path).at == Recover && Last(path).c.dst.pod != NoPod
    ensures IsPath(declared, more) && path <= more
    ensures var s := Last(path);
            Last(more) == s.(c := s.c.(dst := s.c.dst.(pod := Running(true))),
                             at := RecoverSpec(s.c.src.pod != NoPod), seenHealthy := true)
  {
    var s := Last(path);
    var s1 := s.(c := s.c.(dst := s.c.dst.(pod := Running(true))));
    var s2 := s1.(at := RecoverDest(s.c.src.pod != NoPod), seenHealthy := false);
    var s3 := s2.(at := RecoverSpec(s.c.src.pod != NoPod), seenHealthy := true);
    assert HealthStep(s, s1);
    assert RecoverStep(declared, s1, s2) && RecoverStep(declared, s2, s3);
    hide HealthStep, RecoverStep;
    more := Extend(declared, path, s1);
    more := Extend(declared, more, s2);
    more := Extend(declared, more, s3);
  }

  /** A persisted desired state makes recovery reap the source. */
  lemma ToPrune(declared: set<string>, path: seq<State>) returns (more: seq<State>)
    requires IsPath(declared, path) && Last(path).at.RecoverSpec? && Last(path).c.dst.spec
    ensures IsPath(declared, more) && path <= more
    ensures var s, s' := Last(path), Last(more);
            && s'.at.Deleting? && s'.at.at == Src && s'.at.stage == Prune
            && s'.snap == s.snap && s'.c.dst == s.c.dst && s'.c.src.vols == s.c.src.vols
  {
    var s := Last(path);
    if s.at.srcPresent {
      var s1 := s.(at := Deleting(Src, RemovePod, Forward));
      assert RecoverStep(declared, s, s1);
      more := Extend(declared, path, s1);
      var s2 := s1.(c := Put(s1.c, Src, s1.c.src.(pod := NoPod)), at := Deleting(Src, Prune, Forward));
      assert DeleteStep(declared, s1, s2);
      more := Extend(declared, more, s2);
    } else {
      var s1 := s.(at := Deleting(Src, Prune, Adopt));
      assert RecoverStep(declared, s, s1);
      more := Extend(declared, path, s1);
    }
  }

  lemma PruneIt(declared: set<string>, path: seq<State>, v: string) returns (more: seq<State>)
    requires IsPath(declared, path) && v in declared
    requires Last(path).at.Deleting? && Last(path).at.at == Src && Last(path).at.stage == Prune
    ensures IsPath(declared, more) && more == path + [Last(more)]
    ensures var s, s' := Last(path), Last(more);
            s'.snap == s.snap && s'.c.dst == s.c.dst && s'.c.src.vols == s.c.src.vols - {v}
  {
    var s := Last(path);
    var s' := s.(c := Put(s.c, Src, s.c.src.(vols := s.c.src.vols - {v})));
    assert PruneOne(s, s', s.c.src, v);
    assert DeleteStep(declared, s, s');
    more := Extend(declared, path, s');
  }

  /** With a pod and a row on the destination, recovery can prune any declared volume of
      the source. */
  lemma Reap(declared: set<string>, path: seq<State>, v: string) returns (more: seq<State>)
    requires IsPath(declared, path) && Last(path).at == Recover && Committed(Last(path).c.dst) && v in declared
    ensures IsPath(declared, more) && path <= more
    ensures var s, s' := Last(path), Last(more);
            s'.snap == s.snap && s'.c.dst.vols == s.c.dst.vols && s'.c.src.vols == s.c.src.vols - {v}
  {
    hide IsPath, Next;
    more := ToSpecCheck(declared, path);
    more := ToPrune(declared, more);
    more := PruneIt(declared, more, v);
  }

  // ----- A destination that is already home to the instance -----

  /** No data is at stake: the destination does not have a pod together with a row, or the
      source has none of the declared volumes, or its pod is gone for good and the
      destination already has the same data. */
  ghost predicate NothingAtStake(s: State)
  {
    DestFree(s) || s.snap == map[] || (s.c.src.pod == NoPod && Holds(s.c.dst, s.snap))
  }

  /** Largest file size a volume's contents record at one fixed path. */
  function SizeBound(cs: seq<Content>): nat
  {
    if cs == [] then 0
    else
      var n, c := SizeBound(cs[..|cs| - 1]), cs[|cs| - 1].checked;
      if "f" in c && c["f"].size >= n then c["f"].size + 1 else n
  }

  lemma {:induction false} SizeBoundIsOne(cs: seq<Content>, k: nat)
    requires k < |cs| && "f" in cs[k].checked
    ensures cs[k].checked["f"].size < SizeBound(cs)
  {
    if k < |cs| - 1 {
      assert cs[..|cs| - 1][k] == cs[k];
      SizeBoundIsOne(cs[..|cs| - 1], k);
    }
  }

  /** There is always something new to write. */
  lemma SomethingNew(vol: Volume) returns (f: Content)
    ensures !Descends(vol, f)
  {
    var all := [vol.base] + vol.writes;
    f := Content(map["f" := FileInfo(REG, SizeBound(all), [], "")], map[]);
    forall k | 0 <= k < |all| ensures all[k].checked != f.checked {
      if "f" in all[k].checked {
        SizeBoundIsOne(all, k);
      }
    }
    assert all[0] == vol.base && forall k :: 0 <= k < |vol.writes| ==> all[k + 1] == vol.writes[k];
  }

  /** A crash hands the job to recovery with the source's pod running. */
  lemma SourceRuns(declared: set<string>, s0: State) returns (path: seq<State>)
    requires s0.at == Preflight && s0.c.src.pod != NoPod && s0.c.dst.pod != NoPod
    ensures IsPath(declared, path) && path[0] == s0
    ensures var s := Last(path);
            && s.at == Recover && s.c.src.pod.Running? && s.snap == s0.snap && s.stopped == s0.stopped
            && s.c.src.vols == s0.c.src.vols && s.c.dst.vols == s0.c.dst.vols
            && s.c.dst.pod != NoPod && s.c.dst.spec == s0.c.dst.spec
  {
    var s1 := s0.(at := Recover);
    assert CrashStep(s0, s1);
    path := Extend(declared, [s0], s1);
    if s0.c.src.pod == Stopped {
      var s2 := s1.(c := s1.c.(dst := s1.c.dst.(pod := Running(false))));
      assert HealthStep(s1, s2);
      path := Extend(declared, path, s2);
      var s3 := s2.(at := RecoverDest(true), seenHealthy := false);
      assert RecoverStep(declared, s2, s3);
      path := Extend(declared, path, s3);
      var s4 := s3.(at := RestoreSource);
      assert RecoverStep(declared, s3, s4);
      path := Extend(declared, path, s4);
      var s5 := s4.(c := s4.c.(src := s4.c.src.(pod := Running(true))), at := Recover);
      assert RecoverStep(declared, s4, s5);
      path := Extend(declared, path, s5);
    }
  }

  /** A crash before the destination check, and recovery takes the instance it finds there
      for the finished copy: a volume whose data that instance never had is lost. */
  lemma OccupiedDestLosesData(declared: set<string>, s0: State, v: string) returns (run: seq<State>)
    requires Start(declared, s0) && Committed(s0.c.dst) && v in s0.snap && !Keeps(s0.c.dst, s0.snap, v)
    ensures IsRun(declared, run) && run[0] == s0 && !SafeRun(run)
  {
    var s1 := s0.(at := Recover);
    assert CrashStep(s0, s1);
    run := Extend(declared, [s0], s1);
    run := Reap(declared, run, v);
    assert !Keeps(Last(run).c.src, s0.snap, v) && !Keeps(Last(run).c.dst, s0.snap, v);
  }

  /** The same when that instance has all the data there was: it lacks what the source is
      still writing. */
  lemma OccupiedDestLosesWrites(declared: set<string>, s0: State, v: string) returns (run: seq<State>)
    requires Start(declared, s0) && Committed(s0.c.dst) && v in s0.snap && s0.c.src.pod != NoPod && v in s0.c.dst.vols
    ensures IsRun(declared, run) && run[0] == s0 && !SafeRun(run)
  {
    var f := SomethingNew(s0.c.dst.vols[v]);
    run := SourceRuns(declared, s0);
    var s := Last(run);
    var written := s.c.src.(vols := s.c.src.vols[v := s.c.src.vols[v].(writes := s.c.src.vols[v].writes + [f])]);
    var s' := s.(c := s.c.(src := written), snap := s.snap[v := f]);
    assert SourceWrite(s, s', v, f);
    run := Extend(declared, run, s');
    run := Reap(declared, run, v);
    assert !Keeps(Last(run).c.src, s'.snap, v) && !Keeps(Last(run).c.dst, s'.snap, v);
  }

  /** A destination left over from an earlier attempt: it has what the source held when it
      was stopped then, a pod and a row, but not what the source has written since. */
  lemma LeftoverCopyLosesWrites(v: string, then_: Content, since: Content) returns (run: seq<State>)
    requires then_.checked != since.checked
    ensures IsRun({v}, run) && !SafeRun(run)
    ensures run[0].c.src.vols == map[v := Volume(then_, [since])] && run[0].c.dst.vols == map[v := Volume(then_, [])]
  {
    var src := Host(Running(true), map[v := Volume(then_, [since])], true);
    var dst := Host(Running(true), map[v := Volume(then_, [])], true);
    var s0 := State(Cluster(src, dst), Preflight, Snapshot({v}, src), false, false);
    run := OccupiedDestLosesData({v}, s0, v);
  }

  // ----- And why nothing else loses data -----

  /** A job that cannot get past its check of the destination never stops the source. */
  predicate Unstarted(s: State)
  {
    && !s.stopped
    && match s.at
       case Preflight => s.c.dst.pod != NoPod
       case Recover => true
       case RecoverDest(_) => true
       case RecoverSpec(_) => true
       case RestoreSource => true
       case Deleting(_, _, cause) => !cause.Rollback? && !cause.Commit?
       case Done(_) => true
       case _ => false
  }

  lemma UnstartedPass(declared: set<string>, s: State, s': State)
    requires Unstarted(s) && (DeleteStep(declared, s, s') || RecoverStep(declared, s, s'))
    ensures Unstarted(s') && s'.snap == s.snap
  {
    if DeleteStep(declared, s, s') {
      assert s'.snap == s.snap && s'.stopped == s.stopped;
      assert s'.at == Recover || s'.at.Done? || (s'.at.Deleting? && s'.at.cause == s.at.cause);
    } else {
      RecoverFrame(declared, s, s');
    }
  }

  lemma UnstartedNext(declared: set<string>, s: State, s': State)
    requires Unstarted(s) && Next(declared, s, s')
    ensures Unstarted(s') && s'.snap.Keys == s.snap.Keys
  {
    hide DeleteStep, RecoverStep, Settled, Snapshot;
    if DeleteStep(declared, s, s') || RecoverStep(declared, s, s') {
      UnstartedPass(declared, s, s');
    }
  }

  lemma {:induction false} UnstartedRun(declared: set<string>, run: seq<State>, i: nat)
    requires IsRun(declared, run) && Unstarted(run[0]) && i < |run|
    ensures Unstarted(run[i]) && run[i].snap.Keys == run[0].snap.Keys
  {
    hide Next, Unstarted;
    if i == 0 {
    } else {
      UnstartedRun(declared, run, i - 1);
      UnstartedNext(declared, run[i - 1], run[i]);
    }
  }

  /** With the source's pod gone, recovery can only adopt the destination. */
  ghost predicate Adoptable(s: State)
  {
    !s.stopped && s.c.src.pod == NoPod && Committed(s.c.dst) && Holds(s.c.dst, s.snap) && AdoptingAt(s.at)
  }

  predicate AdoptingAt(at: Control)
  {
    match at
    case Preflight => true
    case Recover => true
    case RecoverDest(present) => !present
    case RecoverSpec(present) => !present
    case Deleting(side, stage, cause) => side == Src && stage != RemovePod && cause == Adopt
    case Done(_) => true
    case _ => false
  }

  lemma AdoptableWrite(s: State, s': State)
    requires Adoptable(s) && WriteStep(s, s')
    ensures Adoptable(s')
  {
    var v, f :| DestWrite(s, s', v, f);
    WriteKeeps(s.c.dst, s'.c.dst, v, f, s.snap);
    hide Descends;
    assert Holds(s'.c.dst, s'.snap);
  }

  /** Nothing but the source's leftovers has changed. */
  predicate StillAdopting(s: State, s': State)
  {
    && s'.c.dst.vols == s.c.dst.vols && s'.c.dst.spec && s'.c.dst.pod != NoPod
    && s'.snap == s.snap && !s'.stopped && s'.c.src.pod == NoPod && AdoptingAt(s'.at)
  }

  lemma AdoptableDelete(declared: set<string>, s: State, s': State)
    requires Adoptable(s) && DeleteStep(declared, s, s')
    ensures StillAdopting(s, s')
  {
    hide Holds;
    assert s'.c.dst == s.c.dst && s'.snap == s.snap && s'.stopped == s.stopped && s'.c.src.pod == NoPod;
  }

  lemma AdoptablePlace(declared: set<string>, s: State, s': State)
    requires Adoptable(s) && Next(declared, s, s') && !WriteStep(s, s')
    ensures StillAdopting(s, s')
  {
    hide Holds, WriteStep, DeleteStep, Settled, Snapshot;
    if DeleteStep(declared, s, s') {
      AdoptableDelete(declared, s, s');
    }
  }

  lemma AdoptableNext(declared: set<string>, s: State, s': State)
    requires Adoptable(s) && Next(declared, s, s')
    ensures Adoptable(s')
  {
    hide Descends;
    if WriteStep(s, s') {
      AdoptableWrite(s, s');
    } else {
      hide WriteStep, Settled, Snapshot;
      AdoptablePlace(declared, s, s');
      assert Holds(s'.c.dst, s'.snap);
      hide Next;
    }
  }

  lemma {:induction false} AdoptableRun(declared: set<string>, run: seq<State>, i: nat)
    requires IsRun(declared, run) && Adoptable(run[0]) && i < |run|
    ensures Adoptable(run[i])
  {
    hide Next, Adoptable;
    if i == 0 {
    } else {
      AdoptableRun(declared, run, i - 1);
      AdoptableNext(declared, run[i - 1], run[i]);
    }
  }

  lemma NothingAtStakeIsSafe(declared: set<string>, run: seq<State>)
    requires IsRun(declared, run) && NothingAtStake(run[0])
    ensures SafeRun(run)
  {
    hide Next;
    if DestFree(run[0]) {
      NoDataLoss(declared, run);
    } else if run[0].snap == map[] {
      forall i | 0 <= i < |run| ensures Safe(run[i]) {
        UnstartedRun(declared, run, i);
      }
    } else {
      forall i | 0 <= i < |run| ensures Safe(run[i]) {
        AdoptableRun(declared, run, i);
      }
    }
  }

  /** The guarantee is exact: every run keeps the data if and only if nothing is at stake
      when the job starts, which for a source with a pod and data means that the
      destination does not have a pod together with a row. */
  lemma NoDataLossIff(declared: set<string>, s0: State)
    requires Start(declared, s0)
    ensures NothingAtStake(s0) <==> forall run :: IsRun(declared, run) && run[0] == s0 ==> SafeRun(run)
  {
    hide Next, Start, SafeRun;
    if NothingAtStake(s0) {
      forall run | IsRun(declared, run) && run[0] == s0 ensures SafeRun(run) {
        NothingAtStakeIsSafe(declared, run);
      }
    } else {
      var run := LosingRun(declared, s0);
    }
  }

  lemma LosingRun(declared: set<string>, s0: State) returns (run: seq<State>)
    requires Start(declared, s0) && !NothingAtStake(s0)
    ensures IsRun(declared, run) && run[0] == s0 && !SafeRun(run)
  {
    hide IsRun, Next, SafeRun;
    if v :| v in s0.snap && !Keeps(s0.c.dst, s0.snap, v) {
      run := OccupiedDestLosesData(declared, s0, v);
    } else {
      assert Holds(s0.c.dst, s0.snap);
      var v :| v in s0.snap;
      assert Keeps(s0.c.dst, s0.snap, v);
      run := OccupiedDestLosesWrites(declared, s0, v);
    }
  }
}
