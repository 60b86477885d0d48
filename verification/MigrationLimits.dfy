/** What the no-loss guarantee does not cover: a volume that a template edit declares
    while the job runs, and what a restarted source writes while a complete destination is
    still there. Each with the run that loses it and the exact condition. */
module MigrationLimits {
  import opened Migration
  import opened MigrationSafety
  import opened MigrationExact

  // ----- A job that goes well -----

  ghost function Enumerate(names: set<string>): seq<string>
  {
    if names == {} then []
    else
      var v :| v in names;
      [v] + Enumerate(names - {v})
  }

  lemma {:induction false} EnumerateAll(names: set<string>)
    ensures forall v :: v in Enumerate(names) <==> v in names
  {
    if names == {} {
    } else {
      var v :| v in names && Enumerate(names) == [v] + Enumerate(names - {v});
      EnumerateAll(names - {v});
    }
  }

  /** The destination once it has the first volume on the list, empty or as it was. */
  function Made(s: State): Host
    requires s.at.CreateVolume? && s.at.todo != []
  {
    var v, dst := s.at.todo[0], s.c.dst;
    if v in dst.vols then dst else dst.(vols := dst.vols[v := Volume(Content(map[], map[]), [])])
  }

  lemma CreateIt(declared: set<string>, path: seq<State>) returns (more: seq<State>)
    requires IsPath(declared, path) && Last(path).at.CreateVolume? && Last(path).at.todo != []
    ensures IsPath(declared, more) && more[0] == path[0]
    ensures var s := Last(path); Last(more) == s.(c := s.c.(dst := Made(s)), at := CopyVolume(s.at.todo))
  {
    var s := Last(path);
    var s1 := s.(c := s.c.(dst := Made(s)), at := CopyVolume(s.at.todo));
    assert CopyStep(declared, s, s1);
    hide CopyStep, Made;
    more := Extend(declared, path, s1);
  }

  lemma TransferIt(declared: set<string>, path: seq<State>) returns (more: seq<State>)
    requires IsPath(declared, path) && Last(path).at.CopyVolume? && Last(path).at.todo != []
    requires Last(path).at.todo[0] in Last(path).c.src.vols
    ensures IsPath(declared, more) && more[0] == path[0]
    ensures var s := Last(path);
            var v := s.at.todo[0];
            var got := s.c.dst.vols[v := Volume(s.c.src.vols[v].Live(), [])];
            Last(more) == s.(c := s.c.(dst := s.c.dst.(vols := got)), at := CreateVolume(s.at.todo[1..]))
  {
    var s := Last(path);
    var v := s.at.todo[0];
    var content := s.c.src.vols[v].Live();
    var copied := s.c.dst.(vols := s.c.dst.vols[v := Volume(content, [])]);
    var s1 := s.(c := s.c.(dst := copied), at := VerifyVolume(s.at.todo, content.checked));
    assert CopyStep(declared, s, s1);
    more := Extend(declared, path, s1);
    var s2 := s1.(at := CreateVolume(s.at.todo[1..]));
    assert CopyStep(declared, s1, s2);
    more := Extend(declared, more, s2);
  }

  /** Copies and verifies the first volume on the list. */
  lemma CopyOne(declared: set<string>, path: seq<State>) returns (more: seq<State>)
    requires IsPath(declared, path) && Last(path).at.CreateVolume? && Last(path).at.todo != []
    requires Last(path).at.todo[0] in Last(path).c.src.vols
    ensures IsPath(declared, more) && more[0] == path[0]
    ensures var s, s' := Last(path), Last(more);
            && s'.at == CreateVolume(s.at.todo[1..]) && s'.snap == s.snap && s'.stopped == s.stopped
            && s'.c.src == s.c.src && s'.c.dst.pod == s.c.dst.pod && s'.c.dst.spec == s.c.dst.spec
            && s'.c.dst.vols.Keys == s.c.dst.vols.Keys + {s.at.todo[0]}
  {
    hide Next;
    more := CreateIt(declared, path);
    more := TransferIt(declared, more);
  }

  lemma {:induction false} CopyAll(declared: set<string>, path: seq<State>) returns (more: seq<State>)
    requires IsPath(declared, path) && Last(path).at.CreateVolume?
    requires forall v :: v in Last(path).at.todo ==> v in Last(path).c.src.vols
    ensures IsPath(declared, more) && more[0] == path[0]
    ensures var s, s' := Last(path), Last(more);
            && s'.at == CreateVolume([]) && s'.snap == s.snap && s'.stopped == s.stopped
            && s'.c.src == s.c.src && s'.c.dst.pod == s.c.dst.pod
            && s'.c.dst.vols.Keys <= s.c.dst.vols.Keys + s.c.src.vols.Keys
            && (forall v :: v in s'.c.dst.vols ==> v in s.c.dst.vols || v in s.at.todo)
    decreases |Last(path).at.todo|
  {
    hide Next;
    more := path;
    if Last(path).at.todo == [] {
    } else {
      more := CopyOne(declared, path);
      more := CopyAll(declared, more);
    }
  }

  /** Plays the pod on the destination and persists its row. */
  lemma ApplyAll(declared: set<string>, path: seq<State>) returns (more: seq<State>)
    requires IsPath(declared, path) && Last(path).at == CreateVolume([]) && Last(path).c.dst.pod == NoPod
    ensures IsPath(declared, more) && more[0] == path[0]
    ensures var s, s' := Last(path), Last(more);
            && s'.at == AwaitDest && s'.snap == s.snap && s'.stopped == s.stopped
            && s'.c.src == s.c.src && s'.c.dst == Host(Running(true), s.c.dst.vols, true)
  {
    var s := Last(path);
    var s1 := s.(at := ApplyInspect);
    var s2 := s1.(at := ApplyPlay);
    var s3 := s2.(c := s2.c.(dst := s2.c.dst.(pod := Running(true))), at := ApplyPersist);
    var s4 := s3.(c := s3.c.(dst := s3.c.dst.(spec := true)), at := ApplyIngress);
    var s5 := s4.(at := AwaitDest);
    assert CopyStep(declared, s, s1);
    assert ApplyStep(s1, s2) && ApplyStep(s2, s3) && ApplyStep(s3, s4) && ApplyStep(s4, s5);
    hide CopyStep, ApplyStep;
    more := Extend(declared, path, s1);
    more := Extend(declared, more, s2);
    more := Extend(declared, more, s3);
    more := Extend(declared, more, s4);
    more := Extend(declared, more, s5);
  }

  /** From every source with a pod and every destination without one, the job can get as
      far as waiting for a destination that has everything. */
  lemma ReachesAwait(declared: set<string>, s0: State) returns (run: seq<State>)
    requires Start(declared, s0) && s0.c.src.pod != NoPod && s0.c.dst.pod == NoPod
    ensures IsRun(declared, run) && IsPath(declared, run) && run[0] == s0
    ensures var s := Last(run);
            && s.at == AwaitDest && s.stopped && s.c.dst.pod == Running(true) && s.c.dst.spec
            && s.c.src.pod == Stopped && s.c.src.vols.Keys == s0.c.src.vols.Keys
            && (forall v :: v in s.c.dst.vols ==> v in s0.c.dst.vols || v in declared)
  {
    var todo := Enumerate(declared * s0.c.src.vols.Keys);
    EnumerateAll(declared * s0.c.src.vols.Keys);
    var s1 := s0.(at := StopSource);
    var src := Settled(s0.c.src);
    var s2 := s1.(c := s1.c.(src := src), snap := Snapshot(declared, src), stopped := true, at := ListVolumes);
    var s3 := s2.(at := CreateVolume(todo));
    assert CopyStep(declared, s0, s1) && CopyStep(declared, s1, s2) && CopyStep(declared, s2, s3);
    assert src.vols.Keys == s0.c.src.vols.Keys && src.pod == Stopped;
    hide CopyStep, Settled, Snapshot;
    run := Extend(declared, [s0], s1);
    run := Extend(declared, run, s2);
    run := Extend(declared, run, s3);
    hide Next;
    run := CopyAll(declared, run);
    run := ApplyAll(declared, run);
    assert IsPath(declared, run);
    IsRunOf(declared, run);
  }

  /** And, having seen it ready, as far as reaping the source. */
  lemma ReachesReap(declared: set<string>, s0: State) returns (run: seq<State>)
    requires Start(declared, s0) && s0.c.src.pod != NoPod && s0.c.dst.pod == NoPod
    ensures IsRun(declared, run) && run[0] == s0
    ensures var s := Last(run);
            && s.at == Deleting(Src, RemovePod, Commit) && s.c.src.vols.Keys == s0.c.src.vols.Keys
            && (forall v :: v in s.c.dst.vols ==> v in s0.c.dst.vols || v in declared)
  {
    hide Start;
    run := ReachesAwait(declared, s0);
    var s := Last(run);
    var s' := s.(at := Deleting(Src, RemovePod, Commit), seenHealthy := true);
    assert ApplyStep(s, s');
    hide ApplyStep;
    run := Extend(declared, run, s');
    IsRunOf(declared, run);
  }

  lemma IsRunOf(declared: set<string>, run: seq<State>)
    requires IsPath(declared, run) && Start(declared, run[0])
    ensures IsRun(declared, run)
  {
  }

  // ----- A template edited while the job runs -----

  /** About to reap the source, or at it. */
  predicate Reaping(s: State)
  {
    s.at.Deleting? && s.at.at == Src && (s.at.stage == RemovePod || s.at.stage == Prune)
  }

  /** Source volumes that were never copied stay where they are. */
  ghost predicate SparesUncopied(s: State, path: seq<State>)
  {
    forall i, v :: 0 <= i < |path| && v in s.c.src.vols && v !in s.snap ==> v in path[i].c.src.vols
  }

  lemma UnprunedStep(declared: set<string>, s: State, s': State, v: string)
    requires Next(declared, s, s') && v !in declared && v in s.c.src.vols
    ensures v in s'.c.src.vols
  {
    OnlyDeletesLoseVolumes(declared, s, s');
    hide CopyStep, ApplyStep, RecoverStep, WriteStep, HealthStep, CrashStep;
  }

  /** Only what is declared is ever pruned. */
  lemma {:induction false} Unpruned(declared: set<string>, path: seq<State>, i: nat, v: string)
    requires IsPath(declared, path) && i < |path| && v !in declared && v in path[0].c.src.vols
    ensures v in path[i].c.src.vols
  {
    hide Next;
    if i == 0 {
    } else {
      Unpruned(declared, path, i - 1, v);
      UnprunedStep(declared, path[i - 1], path[i], v);
    }
  }

  /** The reap reads the template again, so it prunes a volume declared since. */
  lemma PrunesLateVolume(later: set<string>, s: State, v: string) returns (path: seq<State>)
    requires Reaping(s) && v in later
    ensures IsPath(later, path) && path[0] == s && v !in Last(path).c.src.vols && Last(path).c.dst == s.c.dst
  {
    path := [s];
    if s.at.stage == RemovePod {
      var s1 := s.(c := Put(s.c, Src, s.c.src.(pod := NoPod)), at := s.at.(stage := Prune));
      assert DeleteStep(later, s, s1);
      path := Extend(later, path, s1);
    }
    path := PruneIt(later, path, v);
  }

  /** If the template becomes `later` when a sound job is about to reap the source, every
      continuation spares the volumes that were never copied if and only if every source
      volume the new template declares was declared all along. */
  lemma LateDeclarationIff(declared: set<string>, later: set<string>, s: State)
    requires Inv(declared, s) && Reaping(s)
    ensures (forall path: seq<State> :: IsPath(later, path) && path[0] == s ==> SparesUncopied(s, path))
            <==> forall v :: v in later && v in s.c.src.vols ==> v in declared
  {
    assert Listed(declared, s);
    hide Inv, IsPath;
    if forall v :: v in later && v in s.c.src.vols ==> v in declared {
      forall path: seq<State> | IsPath(later, path) && path[0] == s ensures SparesUncopied(s, path) {
        forall i, v | 0 <= i < |path| && v in s.c.src.vols && v !in s.snap ensures v in path[i].c.src.vols {
          Unpruned(later, path, i, v);
        }
      }
    } else {
      var v :| v in later && v in s.c.src.vols && v !in declared;
      var path := PrunesLateVolume(later, s, v);
      assert !SparesUncopied(s, path);
    }
  }

  /** A real case of it: any source volume the template does not declare when the job
      starts, and does when the job commits, ends up on neither host. */
  lemma LateDeclarationLosesVolume(declared: set<string>, s0: State, v: string)
      returns (run: seq<State>, path: seq<State>)
    requires Start(declared, s0) && s0.c.src.pod != NoPod && s0.c.dst.pod == NoPod
    requires v in s0.c.src.vols && v !in declared && v !in s0.c.dst.vols
    ensures IsRun(declared, run) && run[0] == s0
    ensures IsPath(declared + {v}, path) && path[0] == Last(run)
    ensures v in Last(run).c.src.vols && v !in Last(path).c.src.vols && v !in Last(path).c.dst.vols
  {
    hide Next, Start;
    run := ReachesReap(declared, s0);
    path := PrunesLateVolume(declared + {v}, Last(run), v);
  }

  // ----- A source that was started again -----

  /** The job is past copying: committing, rolling back, or being recovered. */
  predicate Past(at: Control)
  {
    match at
    case Deleting(_, _, _) => true
    case Recover => true
    case RecoverDest(_) => true
    case RecoverSpec(_) => true
    case RestoreSource => true
    case Done(_) => true
    case _ => false
  }

  predicate AtSource(s: State)
  {
    s.at.Deleting? && s.at.at == Src
  }

  /** The volume is still there, with every write made to it. */
  predicate Grows(h: Host, h': Host, v: string)
    requires v in h.vols
  {
    v in h'.vols && h.vols[v].writes <= h'.vols[v].writes
  }

  /** In every continuation the source keeps its volumes and all it writes to them. */
  ghost predicate SourceSurvives(declared: set<string>, s: State)
  {
    forall path: seq<State>, i, v :: IsPath(declared, path) && path[0] == s && 0 <= i < |path| && v in s.c.src.vols ==>
      Grows(s.c.src, path[i].c.src, v)
  }

  lemma PastDelete(declared: set<string>, s: State, s': State)
    requires DeleteStep(declared, s, s')
    ensures Past(s'.at) && (AtSource(s') ==> AtSource(s))
    ensures !AtSource(s) ==> s'.c.src == s.c.src
    ensures AtSource(s) ==> s'.c.dst == s.c.dst
    ensures forall v :: v in s.c.src.vols && v !in declared ==>
            v in s'.c.src.vols && s'.c.src.vols[v] == s.c.src.vols[v]
    ensures s'.c.dst.spec ==> s.c.dst.spec
    ensures s'.c.dst.pod != NoPod ==> s.c.dst.pod != NoPod
  {
  }

  lemma PastWrite(s: State, s': State)
    requires WriteStep(s, s')
    ensures s'.at == s.at && s'.c.dst.pod == s.c.dst.pod && s'.c.dst.spec == s.c.dst.spec
    ensures forall v :: v in s.c.src.vols ==> Grows(s.c.src, s'.c.src, v)
  {
  }

  lemma PastOther(declared: set<string>, s: State, s': State)
    requires Past(s.at) && (RecoverStep(declared, s, s') || CrashStep(s, s') || HealthStep(s, s'))
    ensures Past(s'.at) && s'.c.src.vols == s.c.src.vols && s'.c.dst.spec == s.c.dst.spec
    ensures s'.c.dst.pod == NoPod <==> s.c.dst.pod == NoPod
    ensures AtSource(s') ==> AtSource(s) || (s.at.RecoverSpec? && s.c.dst.spec)
    ensures s'.at.RecoverSpec? ==> s.c.dst.pod != NoPod || s.at.RecoverSpec?
  {
    if RecoverStep(declared, s, s') {
      RecoverFrame(declared, s, s');
    }
  }

  lemma PastStep(declared: set<string>, s: State, s': State)
    requires Past(s.at) && Next(declared, s, s')
    ensures Past(s'.at)
    ensures forall v :: v in s.c.src.vols && (v !in declared || !AtSource(s)) ==> Grows(s.c.src, s'.c.src, v)
  {
    hide DeleteStep, WriteStep, RecoverStep, CrashStep, HealthStep;
    if DeleteStep(declared, s, s') {
      PastDelete(declared, s, s');
    } else if WriteStep(s, s') {
      PastWrite(s, s');
    } else {
      PastOther(declared, s, s');
    }
  }

  /** Without a pod and a row on the destination, recovery never turns on the source. */
  predicate Unreplaced(s: State)
  {
    Past(s.at) && !AtSource(s) && !Committed(s.c.dst) && (s.at.RecoverSpec? ==> s.c.dst.pod != NoPod)
  }

  lemma UnreplacedStep(declared: set<string>, s: State, s': State)
    requires Unreplaced(s) && Next(declared, s, s')
    ensures Unreplaced(s')
  {
    hide DeleteStep, WriteStep, RecoverStep, CrashStep, HealthStep;
    if DeleteStep(declared, s, s') {
      PastDelete(declared, s, s');
      DeleteIsNotASpecCheck(declared, s, s');
    } else if WriteStep(s, s') {
      PastWrite(s, s');
    } else {
      PastOther(declared, s, s');
    }
  }

  lemma DeleteIsNotASpecCheck(declared: set<string>, s: State, s': State)
    requires DeleteStep(declared, s, s')
    ensures !s'.at.RecoverSpec?
  {
  }

  lemma {:induction false} Survives(declared: set<string>, path: seq<State>, i: nat, v: string)
    requires IsPath(declared, path) && i < |path| && Past(path[0].at) && v in path[0].c.src.vols
    requires v !in declared || Unreplaced(path[0])
    ensures Past(path[i].at) && (v !in declared || Unreplaced(path[i])) && Grows(path[0].c.src, path[i].c.src, v)
  {
    hide Next, Past, Committed;
    if i == 0 {
    } else {
      Survives(declared, path, i - 1, v);
      PastStep(declared, path[i - 1], path[i]);
      if Unreplaced(path[i - 1]) {
        UnreplacedStep(declared, path[i - 1], path[i]);
      }
    }
  }

  /** A source restarted by a rollback or by recovery keeps its volumes and what it writes,
      whatever happens next, if and only if the destination does not have a pod together
      with a row (or no source volume is declared): otherwise a destination that turns
      healthy after all is adopted and the source pruned. */
  lemma RestartedSourceSurvivesIff(declared: set<string>, s: State)
    requires Inv(declared, s) && Past(s.at) && !AtSource(s) && !s.at.Done?
    ensures SourceSurvives(declared, s) <==> !Committed(s.c.dst) || forall v :: v in declared ==> v !in s.c.src.vols
  {
    assert ControlInv(declared, s);
    hide Inv, IsPath, ControlInv;
    if !Committed(s.c.dst) || forall v :: v in declared ==> v !in s.c.src.vols {
      forall path: seq<State>, i, v | IsPath(declared, path) && path[0] == s && 0 <= i < |path| && v in s.c.src.vols
        ensures Grows(s.c.src, path[i].c.src, v)
      {
        Survives(declared, path, i, v);
      }
    } else {
      var v :| v in declared && v in s.c.src.vols;
      var path := AdoptsAfterAll(declared, s, v);
      assert !Grows(s.c.src, path[|path| - 1].c.src, v);
    }
  }

  /** The job gives up waiting for the destination, and its rollback restarts the source. */
  lemma RestartsSource(declared: set<string>, path: seq<State>) returns (more: seq<State>)
    requires IsPath(declared, path) && Last(path).at == AwaitDest && Last(path).c.src.pod == Stopped
    ensures IsPath(declared, more) && more[0] == path[0]
    ensures var s := Last(path);
            Last(more) == s.(c := s.c.(src := s.c.src.(pod := Running(true))), at := Deleting(Dst, RemovePod, Rollback))
  {
    var s := Last(path);
    var s1 := s.(at := RollbackStart);
    var s2 := s1.(c := s1.c.(src := s1.c.src.(pod := Running(true))), at := Deleting(Dst, RemovePod, Rollback));
    assert ApplyStep(s, s1) && ApplyStep(s1, s2);
    hide ApplyStep;
    more := Extend(declared, path, s1);
    more := Extend(declared, more, s2);
  }

  /** A running source writes something the destination never had. */
  lemma WritesAnew(declared: set<string>, path: seq<State>, v: string) returns (more: seq<State>, f: Content)
    requires IsPath(declared, path) && Last(path).c.src.pod.Running? && v in Last(path).c.src.vols
    ensures IsPath(declared, more) && more[0] == path[0]
    ensures var s, s' := Last(path), Last(more);
            && s'.at == s.at && s'.c.dst == s.c.dst && s'.c.src.pod == s.c.src.pod
            && v in s'.c.src.vols && f in s'.c.src.vols[v].writes
            && (v in s.c.dst.vols ==> !Descends(s.c.dst.vols[v], f))
  {
    var s := Last(path);
    f := Content(map[], map[]);
    if v in s.c.dst.vols {
      f := SomethingNew(s.c.dst.vols[v]);
    }
    var vol := s.c.src.vols[v];
    var written := vol.(writes := vol.writes + [f]);
    var s' := s.(c := s.c.(src := s.c.src.(vols := s.c.src.vols[v := written])), snap := Following(s, v, f));
    assert SourceWrite(s, s', v, f);
    assert written.writes[|vol.writes|] == f;
    hide SourceWrite, Descends;
    more := Extend(declared, path, s');
  }

  /** A whole run in which it is lost: every declared volume is copied and the destination
      is up, the job gives up waiting for it and restarts the source, the source writes, and
      the daemon dies before the rollback's reap; recovery finds the destination ready. */
  lemma RestartedSourceLosesWrite(declared: set<string>, s0: State, v: string)
      returns (run: seq<State>, k: nat, f: Content)
    requires Start(declared, s0) && s0.c.src.pod != NoPod && s0.c.dst.pod == NoPod
    requires v in declared && v in s0.c.src.vols
    ensures IsRun(declared, run) && run[0] == s0 && k < |run|
    ensures run[k].at == Deleting(Dst, RemovePod, Rollback) && run[k].c.src.pod.Running?
    ensures v in run[k].c.src.vols && f in run[k].c.src.vols[v].writes
    ensures v !in Last(run).c.src.vols && (v in Last(run).c.dst.vols ==> !Descends(Last(run).c.dst.vols[v], f))
  {
    hide Next, Start;
    run := ReachesAwait(declared, s0);
    run := RestartsSource(declared, run);
    run, f := WritesAnew(declared, run, v);
    k := |run| - 1;
    var before := run;
    run := Crashes(declared, run);
    run := Reap(declared, run, v);
    assert run[k] == before[k];
    IsRunOf(declared, run);
  }

  lemma Crashes(declared: set<string>, path: seq<State>) returns (more: seq<State>)
    requires IsPath(declared, path) && !Last(path).at.Done?
    ensures IsPath(declared, more) && more == path + [Last(path).(at := Recover)]
  {
    var s := Last(path).(at := Recover);
    assert CrashStep(Last(path), s);
    hide CrashStep;
    more := Extend(declared, path, s);
  }

  lemma AdoptsAfterAll(declared: set<string>, s: State, v: string) returns (path: seq<State>)
    requires !s.at.Done? && Committed(s.c.dst) && v in declared
    ensures IsPath(declared, path) && path[0] == s && v !in Last(path).c.src.vols
  {
    path := Crashes(declared, [s]);
    path := Reap(declared, path, v);
  }
}
