/** What a migrate or a recovery pass reports is so, over every run, whatever failed on the
    way and whatever the pods do afterwards. */
module MigrationOutcome {
  import opened Migration
  import opened MigrationSafety

  /** The instance is on the destination only. */
  predicate Moved(c: Cluster)
  {
    c.dst.pod != NoPod && c.dst.spec && c.src.pod == NoPod && !c.src.spec
  }

  /** The instance is on the source only. */
  predicate Returned(c: Cluster)
  {
    c.src.pod != NoPod && c.src.spec && c.dst.pod == NoPod && !c.dst.spec
  }

  predicate Truthful(s: State)
  {
    match s.at
    case Deleting(Src, Refresh, _) => !s.c.src.spec
    case Deleting(Dst, Refresh, _) => !s.c.dst.spec
    case Done(Succeeded) => Moved(s.c)
    case Done(RolledForward) => Moved(s.c)
    case Done(RolledBack) => Returned(s.c)
    case _ => true
  }

  /** Which side a delete on someone's behalf is on. */
  predicate Sided(s: State)
  {
    s.at.Deleting? ==> (s.at.at.Src? <==> s.at.cause.Commit? || s.at.cause.Forward? || s.at.cause.Adopt?)
  }

  lemma JobStepTells(declared: set<string>, s: State, s': State)
    requires CopyStep(declared, s, s') || ApplyStep(s, s') || CrashStep(s, s')
    ensures Truthful(s') && Sided(s')
  {
  }

  lemma RecoverStepTells(declared: set<string>, s: State, s': State)
    requires RecoverStep(declared, s, s')
    ensures Truthful(s') && Sided(s')
  {
  }

  lemma DeleteStepTells(declared: set<string>, s: State, s': State)
    requires Inv(declared, s) && Truthful(s) && Sided(s) && DeleteStep(declared, s, s')
    ensures Truthful(s') && Sided(s')
  {
    assert ControlInv(declared, s);
    hide Listed, Holds, Current;
    match s.at.stage
    case RemovePod =>
    case Prune =>
    case DropSpec =>
    case Refresh => assert s'.c == s.c;
  }

  lemma AroundTells(declared: set<string>, s: State, s': State)
    requires Truthful(s) && Sided(s) && (WriteStep(s, s') || HealthStep(s, s'))
    ensures Truthful(s') && Sided(s')
  {
    assert s'.at == s.at;
    assert s'.c.src.spec == s.c.src.spec && s'.c.dst.spec == s.c.dst.spec;
    assert (s'.c.src.pod == NoPod <==> s.c.src.pod == NoPod) && (s'.c.dst.pod == NoPod <==> s.c.dst.pod == NoPod);
    hide WriteStep, HealthStep;
  }

  lemma StepTells(declared: set<string>, s: State, s': State)
    requires Inv(declared, s) && Truthful(s) && Sided(s) && Next(declared, s, s')
    ensures Truthful(s') && Sided(s')
  {
    hide Inv, Truthful, Sided, CopyStep, ApplyStep, DeleteStep, RecoverStep, CrashStep, WriteStep, HealthStep;
    if CopyStep(declared, s, s') || ApplyStep(s, s') || CrashStep(s, s') {
      JobStepTells(declared, s, s');
    } else if RecoverStep(declared, s, s') {
      RecoverStepTells(declared, s, s');
    } else if DeleteStep(declared, s, s') {
      DeleteStepTells(declared, s, s');
    } else {
      AroundTells(declared, s, s');
    }
  }

  lemma {:induction false} RunTells(declared: set<string>, run: seq<State>, i: nat)
    requires IsRun(declared, run) && DestFree(run[0]) && i < |run|
    ensures Inv(declared, run[i]) && Truthful(run[i]) && Sided(run[i])
  {
    hide Inv, Next;
    InvRun(declared, run, i);
    if i == 0 {
    } else {
      RunTells(declared, run, i - 1);
      StepTells(declared, run[i - 1], run[i]);
    }
  }

  /** A migrate that reports success, and a recovery that reports having rolled forward, left
      the instance on the destination only, with all that the source held when it was
      stopped; one that reports having rolled back left it on the source only. */
  lemma ReportsAreTrue(declared: set<string>, run: seq<State>, i: nat)
    requires IsRun(declared, run) && DestFree(run[0]) && i < |run| && run[i].at.Done?
    ensures run[i].at.outcome == Succeeded || run[i].at.outcome == RolledForward ==>
              Moved(run[i].c) && run[i].stopped && Holds(run[i].c.dst, run[i].snap)
    ensures run[i].at.outcome == RolledBack ==> Returned(run[i].c) && Holds(run[i].c.src, run[i].snap)
  {
    RunTells(declared, run, i);
    hide Holds, Listed, Current, IsRun;
  }
}
