/** Recovery of an interrupted migrate always decides the same way: the verdict is a
    function of what is on the hosts, and no step of its own compensation, crash or
    retry changes it. */
module MigrationRecovery {
  import opened Migration
  import opened MigrationSafety

  /** What a recovery pass concludes from the hosts. */
  function Verdict(c: Cluster): Outcome
  {
    if c.dst.pod == Running(true) && c.dst.spec then RolledForward
    else if c.src.pod != NoPod then RolledBack
    else if c.dst.pod != NoPod then OrphanDest
    else NotFound
  }

  /** Control points of recovery, with what each already implies about the verdict. */
  ghost predicate OnCourse(s: State)
  {
    var src, dst := s.c.src, s.c.dst;
    match s.at
    case Recover => true
    case RecoverDest(_) => true
    case RecoverSpec(_) => dst.pod == Running(true)
    case RestoreSource => Verdict(s.c) == RolledBack
    case Deleting(Src, stage, cause) =>
      (cause.Forward? || cause.Adopt?) && Verdict(s.c) == RolledForward && (stage == Refresh ==> !src.spec)
    case Deleting(Dst, stage, cause) =>
      cause.Back? && Verdict(s.c) == RolledBack && (stage == Refresh ==> !dst.spec)
    case Done(outcome) =>
      && (outcome == Verdict(s.c) || outcome == GaveUp)
      && (outcome == RolledForward ==> dst.spec && !src.spec && src.pod == NoPod)
      && (outcome == RolledBack ==> src.spec && !dst.spec && dst.pod == NoPod)
    case _ => false
  }

  /** Any step of recovery or around it during which the destination's health stays put. */
  ghost predicate QuietStep(declared: set<string>, s: State, s': State)
  {
    || DeleteStep(declared, s, s') || RecoverStep(declared, s, s') || CrashStep(s, s') || WriteStep(s, s')
    || (HealthStep(s, s') && s'.c.dst == s.c.dst)
  }

  lemma DeleteOnCourse(declared: set<string>, s: State, s': State)
    requires Inv(declared, s) && OnCourse(s) && DeleteStep(declared, s, s')
    ensures OnCourse(s') && Verdict(s'.c) == Verdict(s.c)
  {
    match s.at.stage
    case RemovePod =>
    case Prune => assert s'.c.src.pod == s.c.src.pod && s'.c.dst.pod == s.c.dst.pod && s'.c.dst.spec == s.c.dst.spec;
    case DropSpec =>
    case Refresh => assert s'.c == s.c;
  }

  lemma RecoverOnCourse(declared: set<string>, s: State, s': State)
    requires Inv(declared, s) && OnCourse(s) && RecoverStep(declared, s, s')
    ensures OnCourse(s') && Verdict(s'.c) == Verdict(s.c)
  {
    RecoverFrame(declared, s, s');
    assert ControlInv(declared, s);
    hide Inv, Frozen, CopiedBut, Holds;
  }

  /** Writes touch neither pods nor rows nor which volumes there are. */
  lemma WriteOnCourse(s: State, s': State)
    requires OnCourse(s) && WriteStep(s, s')
    ensures OnCourse(s') && Verdict(s'.c) == Verdict(s.c)
    ensures Untouched(s.c.src, s'.c.src) && Untouched(s.c.dst, s'.c.dst)
  {
    assert s'.at == s.at;
    assert Untouched(s.c.src, s'.c.src) && Untouched(s.c.dst, s'.c.dst);
    hide WriteStep;
  }

  lemma HealthOnCourse(s: State, s': State)
    requires OnCourse(s) && HealthStep(s, s') && s'.c.dst == s.c.dst
    ensures OnCourse(s') && Verdict(s'.c) == Verdict(s.c)
    ensures s.c.src.pod == NoPod ==> s' == s
  {
    assert s'.at == s.at && (s'.c.src.pod == NoPod <==> s.c.src.pod == NoPod);
  }

  lemma QuietOnCourse(declared: set<string>, s: State, s': State)
    requires Inv(declared, s) && OnCourse(s) && QuietStep(declared, s, s')
    ensures OnCourse(s') && Verdict(s'.c) == Verdict(s.c)
  {
    if DeleteStep(declared, s, s') {
      DeleteOnCourse(declared, s, s');
    } else if RecoverStep(declared, s, s') {
      RecoverOnCourse(declared, s, s');
    } else if WriteStep(s, s') {
      WriteOnCourse(s, s');
    } else if HealthStep(s, s') {
      HealthOnCourse(s, s');
    }
  }

  ghost predicate QuietRun(declared: set<string>, run: seq<State>)
  {
    && run != [] && run[0].at == Recover && Inv(declared, run[0])
    && forall i :: 0 < i < |run| ==> QuietStep(declared, run[i - 1], run[i])
  }

  lemma {:induction false} OnCourseRun(declared: set<string>, run: seq<State>, i: nat)
    requires QuietRun(declared, run) && i < |run|
    ensures Inv(declared, run[i]) && OnCourse(run[i]) && Verdict(run[i].c) == Verdict(run[0].c)
  {
    if i == 0 {
    } else {
      OnCourseRun(declared, run, i - 1);
      QuietOnCourse(declared, run[i - 1], run[i]);
      InvNext(declared, run[i - 1], run[i]);
    }
  }

  /** From any crash state, through any number of crashes and retries of the recovery
      itself, a conclusive outcome is the verdict of the state it started from; rolling
      forward leaves the desired state on the destination only, rolling back on the
      source only, and without a pod on the source it is told by the destination's whether
      the instance is orphaned there or gone. */
  lemma RecoveryIsConsistent(declared: set<string>, run: seq<State>, i: nat)
    requires QuietRun(declared, run) && i < |run| && run[i].at.Done?
    ensures run[i].at.outcome == Verdict(run[0].c) || run[i].at.outcome == GaveUp
    ensures run[i].at.outcome == RolledForward ==> run[i].c.dst.spec && !run[i].c.src.spec && run[i].c.src.pod == NoPod
    ensures run[i].at.outcome == RolledBack ==> run[i].c.src.spec && !run[i].c.dst.spec && run[i].c.dst.pod == NoPod
    ensures run[i].at.outcome == OrphanDest ==> run[i].c.src.pod == NoPod && run[i].c.dst.pod != NoPod
    ensures run[i].at.outcome == NotFound ==> run[i].c.src.pod == NoPod && run[i].c.dst.pod == NoPod
  {
    OnCourseRun(declared, run, i);
  }

  /** Whatever happens around it, a rollback gets past restoring the source only with the
      source running. */
  lemma RestoredSourceRuns(declared: set<string>, s: State, s': State)
    requires Next(declared, s, s') && s.at == RestoreSource && s'.at == Deleting(Dst, RemovePod, Back)
    ensures s'.c.src.pod.Running? && s'.c.src.vols == s.c.src.vols && s'.c.dst == s.c.dst
  {
  }

  /** The step of a run that started the source. */
  ghost predicate StartsSource(run: seq<State>, j: nat)
    requires j < |run|
  {
    0 < j && run[j - 1].at == RestoreSource && run[j].at == Deleting(Dst, RemovePod, Back) && run[j].c.src.pod.Running?
  }

  ghost predicate Started(run: seq<State>, i: nat)
    requires i < |run|
  {
    exists j :: 0 <= j <= i && StartsSource(run, j)
  }

  /** On the way to an answer of rolled back. */
  predicate GoingBack(at: Control)
  {
    at == Done(RolledBack) || (at.Deleting? && at.cause.Back?)
  }

  lemma GoesBackByStarting(declared: set<string>, s: State, s': State)
    requires QuietStep(declared, s, s') && !GoingBack(s.at) && GoingBack(s'.at)
    ensures s.at == RestoreSource && s'.at == Deleting(Dst, RemovePod, Back)
  {
    hide WriteStep, HealthStep;
    if WriteStep(s, s') || HealthStep(s, s') {
      SameControl(s, s');
    }
  }

  lemma SameControl(s: State, s': State)
    requires WriteStep(s, s') || HealthStep(s, s')
    ensures s'.at == s.at
  {
  }

  /** An answer of rolled back, over every run of recovery: in this very run the source was
      started, and found running, before the destination was touched. */
  lemma {:induction false} RolledBackWasStarted(declared: set<string>, run: seq<State>, i: nat)
    requires QuietRun(declared, run) && i < |run| && GoingBack(run[i].at)
    ensures Started(run, i)
  {
    hide Inv, DeleteStep, RecoverStep, CrashStep, WriteStep, HealthStep;
    assert i > 0;
    var s, s' := run[i - 1], run[i];
    assert QuietStep(declared, s, s');
    if GoingBack(s.at) {
      RolledBackWasStarted(declared, run, i - 1);
      var j :| 0 <= j <= i - 1 && StartsSource(run, j);
    } else {
      GoesBackByStarting(declared, s, s');
      RestoredSourceRuns(declared, s, s');
      assert StartsSource(run, i);
    }
  }

  /** Same pods, desired state and volumes. */
  predicate Untouched(h: Host, h': Host)
  {
    h'.pod == h.pod && h'.spec == h.spec && h'.vols.Keys == h.vols.Keys
  }

  lemma DistrustTouchesNothing(declared: set<string>, s: State, s': State)
    requires OnCourse(s) && QuietStep(declared, s, s') && (Verdict(s.c) == OrphanDest || Verdict(s.c) == NotFound)
    ensures Untouched(s.c.src, s'.c.src) && Untouched(s.c.dst, s'.c.dst)
  {
    if WriteStep(s, s') {
      WriteOnCourse(s, s');
    } else if HealthStep(s, s') && s'.c.dst == s.c.dst {
      HealthOnCourse(s, s');
    } else {
      assert s'.c == s.c;
    }
  }

  /** An orphaned destination and a vanished instance are left exactly as found. */
  lemma {:induction false} InconclusiveTouchesNothing(declared: set<string>, run: seq<State>, i: nat)
    requires QuietRun(declared, run) && i < |run|
    requires Verdict(run[0].c) == OrphanDest || Verdict(run[0].c) == NotFound
    ensures Untouched(run[0].c.src, run[i].c.src) && Untouched(run[0].c.dst, run[i].c.dst)
  {
    hide Inv, OnCourse, DeleteStep, RecoverStep, CrashStep, WriteStep, Verdict;
    if i == 0 {
    } else {
      InconclusiveTouchesNothing(declared, run, i - 1);
      OnCourseRun(declared, run, i - 1);
      DistrustTouchesNothing(declared, run[i - 1], run[i]);
    }
  }
}
