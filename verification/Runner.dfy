/** The job runner: workers claim, register, run and record jobs while operators cancel
    them, and a restart hands what it interrupted to reconcile passes. Each step is one
    critical section or one store write. */
module Runner {
  type Id = nat
  type Kind = string
  type Worker = nat

  datatype Outcome = Succeeded | Failed | Canceled

  /** How far a job has got, and with which worker. An abandoned one could not be
      recorded: its row says running and nobody has it. */
  datatype Phase =
    | Queued
    | Claimed(worker: Worker)
    | Running(worker: Worker)
    | Recording(worker: Worker, outcome: Outcome)
    | Abandoned
    | Reconciling
    | Recorded(outcome: Outcome)

  predicate Busy(p: Phase)
  {
    p.Claimed? || p.Running? || p.Recording?
  }

  /** What the row says: a claimed job is a running one. */
  predicate SaysRunning(p: Phase)
  {
    Busy(p) || p.Abandoned?
  }

  /** `confirmed`: some request to cancel it was answered yes by the cancel registry.
      `withdrawn`: one was carried out on its row. `interrupted`: a restart came before
      its outcome was recorded. `said`: what its handler returned, or once it has been
      interrupted the pass that resolved it. */
  datatype Job = Job(kind: Kind, phase: Phase, confirmed: bool, withdrawn: bool, interrupted: bool, said: Said)

  datatype Said = Nothing | Ok | Error

  /** `volumeWorkers` of the workers are reserved for the volume-transfer kinds when the
      split takes effect. */
  datatype Config = Config(workers: nat, volumeKinds: seq<Kind>, volumeWorkers: nat, handled: set<Kind>,
                           reconcilable: set<Kind>)

  predicate IsSplit(c: Config)
  {
    |c.volumeKinds| > 0 && 0 < c.volumeWorkers < c.workers
  }

  /** Which kinds a worker claims. */
  predicate Claims(c: Config, w: Worker, k: Kind)
  {
    if !IsSplit(c) then true
    else if w < c.volumeWorkers then k in c.volumeKinds
    else k !in c.volumeKinds
  }

  function Word(ok: bool): Said
  {
    if ok then Said.Ok else Said.Error
  }

  /** A confirmed cancellation wins over whatever the handler returned. */
  function OutcomeOf(canceled: bool, ok: bool): Outcome
  {
    if canceled then Canceled else if ok then Succeeded else Failed
  }

  // ----- Workers, operators, restarts and reconcile passes together -----

  datatype Verdict = Inconclusive | Resolved(ok: bool)

  /** A reconcile pass over one job. */
  datatype Pass = Going | Returned(verdict: Verdict)

  /** `inflight` is the cancel registry, which running handlers and passes share. */
  datatype State = State(jobs: map<Id, Job>, inflight: map<Id, bool>, passes: map<Id, Pass>)

  const START := State(map[], map[], map[])

  datatype Step =
    | Enqueue(id: Id, kind: Kind)
    | Claim(id: Id, w: Worker)
    | Register(id: Id)
    | Return(id: Id, ok: bool)
    | Record(id: Id)
    | RecordFails(id: Id)
    | Cancel(id: Id)
    | CancelQueued(id: Id)
    | CancelReconciling(id: Id)
    | Restart
    | BeginPass(id: Id)
    | EndPass(id: Id, verdict: Verdict)
    | Resolve(id: Id)

  predicate Free(s: State, w: Worker)
  {
    forall id :: id in s.jobs && Busy(s.jobs[id].phase) ==> s.jobs[id].phase.worker != w
  }

  /** A pass may begin on a job that was reconciling when the sweep listed it and has been
      canceled since. */
  predicate Enabled(c: Config, s: State, step: Step)
  {
    match step
    case Enqueue(id, _) => id !in s.jobs
    case Claim(id, w) =>
      id in s.jobs && s.jobs[id].phase.Queued? && w < c.workers && Free(s, w) && Claims(c, w, s.jobs[id].kind)
    case Register(id) => id in s.jobs && s.jobs[id].phase.Claimed?
    case Return(id, _) => id in s.jobs && s.jobs[id].phase.Running? && id in s.inflight
    case Record(id) => id in s.jobs && s.jobs[id].phase.Recording?
    case RecordFails(id) => id in s.jobs && s.jobs[id].phase.Recording?
    case BeginPass(id) =>
      id in s.jobs && id !in s.passes && s.jobs[id].interrupted
        && (s.jobs[id].phase.Reconciling? || s.jobs[id].phase == Recorded(Canceled))
    case EndPass(id, _) => id in s.passes && s.passes[id].Going?
    case Resolve(id) => id in s.jobs && id in s.passes && s.passes[id].Returned?
    case _ => true
  }

  function Say(s: State, id: Id, ok: bool): State
    requires id in s.jobs
  {
    s.(jobs := s.jobs[id := s.jobs[id].(said := Word(ok))])
  }

  function SetPhase(s: State, id: Id, p: Phase): State
    requires id in s.jobs
  {
    s.(jobs := s.jobs[id := s.jobs[id].(phase := p)])
  }

  function Withdraw(s: State, id: Id): State
    requires id in s.jobs
  {
    s.(jobs := s.jobs[id := s.jobs[id].(phase := Recorded(Canceled), withdrawn := true)])
  }

  /** On boot a row that says running is handed over, or failed. */
  function Interrupted(c: Config, j: Job): Job
  {
    if !SaysRunning(j.phase) then j
    else j.(phase := if j.kind in c.reconcilable then Reconciling else Recorded(Failed), interrupted := true,
            said := Nothing)
  }

  function Next(c: Config, s: State, step: Step): State
    requires Enabled(c, s, step)
  {
    match step
    case Enqueue(id, kind) => s.(jobs := s.jobs[id := Job(kind, Queued, false, false, false, Nothing)])
    case Claim(id, w) => SetPhase(s, id, Claimed(w))
    case Register(id) =>
      var w := s.jobs[id].phase.worker;
      if s.jobs[id].kind in c.handled then SetPhase(s, id, Running(w)).(inflight := s.inflight[id := false])
      else SetPhase(s, id, Recording(w, Failed))
    case Return(id, ok) =>
      var s' := SetPhase(s, id, Recording(s.jobs[id].phase.worker, OutcomeOf(s.inflight[id], ok)));
      Say(s', id, ok).(inflight := s.inflight - {id})
    case Record(id) => SetPhase(s, id, Recorded(s.jobs[id].phase.outcome))
    case RecordFails(id) => SetPhase(s, id, Abandoned)
    case Cancel(id) =>
      // Answered yes exactly when the job is registered.
      if id !in s.inflight then s
      else s.(inflight := s.inflight[id := true],
              jobs := if id in s.jobs then s.jobs[id := s.jobs[id].(confirmed := true)] else s.jobs)
    case CancelQueued(id) => if id in s.jobs && s.jobs[id].phase.Queued? then Withdraw(s, id) else s
    case CancelReconciling(id) => if id in s.jobs && s.jobs[id].phase.Reconciling? then Withdraw(s, id) else s
    case Restart => State(map id | id in s.jobs :: Interrupted(c, s.jobs[id]), map[], map[])
    case BeginPass(id) => s.(passes := s.passes[id := Going], inflight := s.inflight[id := false])
    case EndPass(id, v) => s.(passes := s.passes[id := Returned(v)], inflight := s.inflight - {id})
    case Resolve(id) =>
      // A pass that lost to a cancellation changes nothing.
      var s' := s.(passes := s.passes - {id});
      if s.passes[id].verdict.Resolved? && s.jobs[id].phase.Reconciling?
      then Say(SetPhase(s', id, Recorded(OutcomeOf(false, s.passes[id].verdict.ok))), id, s.passes[id].verdict.ok)
      else s'
  }

  // ----- What every run keeps -----

  predicate IsGoing(s: State, id: Id)
  {
    id in s.passes && s.passes[id].Going?
  }

  /** Success is recorded only on the word of the handler or the pass, and failure never
      against it. */
  predicate Heard(o: Outcome, said: Said)
  {
    (o.Succeeded? ==> said.Ok?) && (o.Failed? ==> !said.Ok?)
  }

  /** A job's worker is one that claims its kind; it is registered exactly while its
      handler or a pass runs; and until a restart a confirmed cancellation is never lost
      nor invented. */
  predicate JobOk(c: Config, j: Job, flag: bool, registered: bool, going: bool)
  {
    && (Busy(j.phase) ==> j.phase.worker < c.workers && Claims(c, j.phase.worker, j.kind))
    && (registered <==> j.phase.Running? || going)
    && (going ==> j.interrupted)
    && (j.interrupted ==> j.phase.Reconciling? || j.phase.Recorded?)
    && (j.withdrawn ==> j.phase == Recorded(Canceled))
    && match j.phase
       case Running(_) => flag == j.confirmed
       case Recording(_, o) => o.Canceled? == j.confirmed && Heard(o, j.said)
       case Recorded(o) => o.Canceled? == (j.withdrawn || (j.confirmed && !j.interrupted)) && Heard(o, j.said)
       case Abandoned => true
       case Reconciling => j.interrupted
       case _ => !j.confirmed && j.said.Nothing?
  }

  predicate JobAt(c: Config, s: State, id: Id)
    requires id in s.jobs
  {
    JobOk(c, s.jobs[id], id in s.inflight && s.inflight[id], id in s.inflight, IsGoing(s, id))
  }

  ghost predicate JobsOk(c: Config, s: State)
  {
    && (forall id :: id in s.jobs ==> JobAt(c, s, id))
    && (forall id :: id in s.inflight || id in s.passes ==> id in s.jobs)
  }

  ghost predicate OneJobEach(s: State)
  {
    forall i, j :: i in s.jobs && j in s.jobs && i != j && Busy(s.jobs[i].phase) && Busy(s.jobs[j].phase) ==>
      s.jobs[i].phase.worker != s.jobs[j].phase.worker
  }

  ghost predicate Inv(c: Config, s: State)
  {
    JobsOk(c, s) && OneJobEach(s)
  }

  lemma ClaimKeepsJobs(c: Config, s: State, step: Step)
    requires JobsOk(c, s) && Enabled(c, s, step) && (step.Enqueue? || step.Claim? || step.Register?)
    ensures JobsOk(c, Next(c, s, step))
  {
    hide Claims, Free;
  }

  lemma ReturnKeepsJobs(c: Config, s: State, step: Step)
    requires JobsOk(c, s) && Enabled(c, s, step) && (step.Return? || step.Record? || step.RecordFails?)
    ensures JobsOk(c, Next(c, s, step))
  {
    hide Claims, Free;
  }

  lemma CancelKeepsJobs(c: Config, s: State, step: Step)
    requires JobsOk(c, s) && Enabled(c, s, step) && (step.Cancel? || step.CancelQueued? || step.CancelReconciling?)
    ensures JobsOk(c, Next(c, s, step))
  {
    hide Claims, Free;
  }

  lemma RestartKeepsJobs(c: Config, s: State)
    requires JobsOk(c, s)
    ensures JobsOk(c, Next(c, s, Restart))
  {
    hide Claims;
    forall id | id in s.jobs ensures JobOk(c, Interrupted(c, s.jobs[id]), false, false, false) {
      assert JobAt(c, s, id);
    }
  }

  lemma PassKeepsJobs(c: Config, s: State, step: Step)
    requires JobsOk(c, s) && Enabled(c, s, step) && (step.BeginPass? || step.EndPass?)
    ensures JobsOk(c, Next(c, s, step))
  {
    hide Claims, Free;
  }

  lemma ResolveKeepsJobs(c: Config, s: State, step: Step)
    requires JobsOk(c, s) && Enabled(c, s, step) && step.Resolve?
    ensures JobsOk(c, Next(c, s, step))
  {
    hide Claims, Free;
  }

  lemma WorkersNext(c: Config, s: State, step: Step)
    requires OneJobEach(s) && Enabled(c, s, step)
    ensures OneJobEach(Next(c, s, step))
  {
    hide Claims;
  }

  lemma NextKeeps(c: Config, s: State, step: Step)
    requires Inv(c, s) && Enabled(c, s, step)
    ensures Inv(c, Next(c, s, step))
  {
    hide JobsOk, OneJobEach, Next, Enabled;
    WorkersNext(c, s, step);
    match step
    case Cancel(_) => CancelKeepsJobs(c, s, step);
    case CancelQueued(_) => CancelKeepsJobs(c, s, step);
    case CancelReconciling(_) => CancelKeepsJobs(c, s, step);
    case Restart => RestartKeepsJobs(c, s);
    case BeginPass(_) => PassKeepsJobs(c, s, step);
    case EndPass(_, _) => PassKeepsJobs(c, s, step);
    case Resolve(_) => ResolveKeepsJobs(c, s, step);
    case Return(_, _) => ReturnKeepsJobs(c, s, step);
    case Record(_) => ReturnKeepsJobs(c, s, step);
    case RecordFails(_) => ReturnKeepsJobs(c, s, step);
    case _ => ClaimKeepsJobs(c, s, step);
  }

  predicate IsRun(c: Config, s: State, steps: seq<Step>)
    decreases |steps|
  {
    steps == [] || (Enabled(c, s, steps[0]) && IsRun(c, Next(c, s, steps[0]), steps[1..]))
  }

  function After(c: Config, s: State, steps: seq<Step>): State
    requires IsRun(c, s, steps)
    decreases |steps|
  {
    if steps == [] then s else After(c, Next(c, s, steps[0]), steps[1..])
  }

  lemma {:induction false} RunKeeps(c: Config, s: State, steps: seq<Step>)
    requires Inv(c, s) && IsRun(c, s, steps)
    ensures Inv(c, After(c, s, steps))
    decreases |steps|
  {
    hide Inv, Next, Enabled;
    if steps == [] {
    } else {
      NextKeeps(c, s, steps[0]);
      RunKeeps(c, Next(c, s, steps[0]), steps[1..]);
    }
  }

  /** The jobs of the reserved kinds that some worker has. */
  function VolumeJobs(c: Config, s: State): set<Id>
  {
    set id | id in s.jobs && Busy(s.jobs[id].phase) && s.jobs[id].kind in c.volumeKinds
  }

  /** Jobs with distinct workers below `n` number at most `n`. */
  lemma {:induction false} DistinctWorkers(worker: map<Id, Worker>, n: nat)
    requires forall id :: id in worker ==> worker[id] < n
    requires forall i, j :: i in worker && j in worker && i != j ==> worker[i] != worker[j]
    ensures |worker.Keys| <= n
  {
    if n == 0 {
      assert worker.Keys == {};
    } else if exists id :: id in worker && worker[id] == n - 1 {
      var id :| id in worker && worker[id] == n - 1;
      DistinctWorkers(worker - {id}, n - 1);
      assert (worker - {id}).Keys == worker.Keys - {id};
    } else {
      DistinctWorkers(worker, n - 1);
    }
  }

  /** Over every interleaving, restarts included: a job is recorded canceled exactly when
      its row was withdrawn, or the registry confirmed a cancellation and no restart came
      before that was recorded; otherwise it is recorded succeeded exactly when the last word
      on it was that it had; and with the pool split at most the reserved number of
      volume-transfer jobs are with workers at once. */
  lemma CancelAndPoolSafety(c: Config, steps: seq<Step>)
    requires IsRun(c, START, steps)
    ensures var s := After(c, START, steps);
            && (forall id :: id in s.jobs && s.jobs[id].phase.Recorded? ==>
                  (s.jobs[id].phase.outcome.Canceled? <==>
                   s.jobs[id].withdrawn || (s.jobs[id].confirmed && !s.jobs[id].interrupted)))
            && (forall id :: id in s.jobs && s.jobs[id].phase.Recorded? && !s.jobs[id].phase.outcome.Canceled? ==>
                  (s.jobs[id].phase.outcome.Succeeded? <==> s.jobs[id].said.Ok?))
            && (IsSplit(c) ==> |VolumeJobs(c, s)| <= c.volumeWorkers)
  {
    RunKeeps(c, START, steps);
    var s := After(c, START, steps);
    if IsSplit(c) {
      var worker := map id | id in VolumeJobs(c, s) :: s.jobs[id].phase.worker;
      DistinctWorkers(worker, c.volumeWorkers);
      assert worker.Keys == VolumeJobs(c, s);
    }
  }

  lemma {:induction false} RunAppend(c: Config, s: State, steps: seq<Step>, step: Step)
    requires IsRun(c, s, steps) && Enabled(c, After(c, s, steps), step)
    ensures IsRun(c, s, steps + [step]) && After(c, s, steps + [step]) == Next(c, After(c, s, steps), step)
    decreases |steps|
  {
    hide Next, Enabled;
    var all := steps + [step];
    if steps == [] {
      assert all == [step] && all[1..] == [];
    } else {
      RunAppend(c, Next(c, s, steps[0]), steps[1..], step);
      assert all[1..] == steps[1..] + [step];
    }
  }

  lemma RunsHandler(c: Config, id: Id, kind: Kind) returns (steps: seq<Step>)
    requires c.workers > 0 && Claims(c, 0, kind) && kind in c.handled
    ensures IsRun(c, START, steps)
    ensures After(c, START, steps) ==
            State(map[id := Job(kind, Running(0), false, false, false, Nothing)], map[id := false], map[])
  {
    steps := [];
    assert IsRun(c, START, steps) && After(c, START, steps) == START;
    hide Claims, After, IsRun;
    RunAppend(c, START, steps, Enqueue(id, kind));
    steps := steps + [Enqueue(id, kind)];
    RunAppend(c, START, steps, Claim(id, 0));
    steps := steps + [Claim(id, 0)];
    RunAppend(c, START, steps, Register(id));
    steps := steps + [Register(id)];
  }

  lemma CancelsAndRestarts(c: Config, id: Id, kind: Kind) returns (steps: seq<Step>)
    requires c.workers > 0 && Claims(c, 0, kind) && kind in c.handled && kind in c.reconcilable
    ensures IsRun(c, START, steps)
    ensures After(c, START, steps) == State(map[id := Job(kind, Reconciling, true, false, true, Nothing)], map[], map[])
  {
    hide Claims, After, IsRun;
    steps := RunsHandler(c, id, kind);
    RunAppend(c, START, steps, Cancel(id));
    steps := steps + [Cancel(id)];
    RunAppend(c, START, steps, Restart);
    steps := steps + [Restart];
  }

  /** It does happen: a cancellation is confirmed to a job's handler, and after a restart the
      pass that reconciles the job records it as succeeded. */
  lemma ConfirmedCancelForgotten(c: Config, id: Id, kind: Kind) returns (steps: seq<Step>)
    requires c.workers > 0 && Claims(c, 0, kind) && kind in c.handled && kind in c.reconcilable
    ensures IsRun(c, START, steps)
    ensures After(c, START, steps).jobs == map[id := Job(kind, Recorded(Succeeded), true, false, true, Said.Ok)]
  {
    hide Claims, After, IsRun;
    steps := CancelsAndRestarts(c, id, kind);
    RunAppend(c, START, steps, BeginPass(id));
    steps := steps + [BeginPass(id)];
    RunAppend(c, START, steps, EndPass(id, Resolved(true)));
    steps := steps + [EndPass(id, Resolved(true))];
    RunAppend(c, START, steps, Resolve(id));
    steps := steps + [Resolve(id)];
  }

  /** What is recorded of a job stays recorded. */
  lemma {:induction false} RecordedIsFinal(c: Config, s: State, id: Id, steps: seq<Step>)
    requires IsRun(c, s, steps) && id in s.jobs && s.jobs[id].phase.Recorded?
    ensures id in After(c, s, steps).jobs && After(c, s, steps).jobs[id].phase == s.jobs[id].phase
    decreases |steps|
  {
    if steps == [] {
    } else {
      var s' := Next(c, s, steps[0]);
      assert id in s'.jobs && s'.jobs[id].phase == s.jobs[id].phase;
      hide Next, Enabled;
      RecordedIsFinal(c, s', id, steps[1..]);
    }
  }

  /** So a job withdrawn while it waits, for a worker or for a pass, never runs again and
      stays canceled, whatever happens afterwards. */
  lemma WithdrawalSticks(c: Config, s: State, id: Id, step: Step, steps: seq<Step>)
    requires id in s.jobs
    requires step == if s.jobs[id].phase.Queued? then CancelQueued(id) else CancelReconciling(id)
    requires s.jobs[id].phase.Queued? || s.jobs[id].phase.Reconciling?
    requires IsRun(c, Next(c, s, step), steps)
    ensures var s' := After(c, Next(c, s, step), steps);
            id in s'.jobs && s'.jobs[id].phase == Recorded(Canceled)
  {
    RecordedIsFinal(c, Next(c, s, step), id, steps);
  }

  /** Workers differ in what they claim exactly when there are reserved kinds and both
      sub-pools have a worker; and each kind has some worker that claims it. */
  lemma WorkersDifferIff(c: Config, kind: Kind)
    ensures (exists v, w, k :: 0 <= v < c.workers && 0 <= w < c.workers && Claims(c, v, k) && !Claims(c, w, k)) <==>
            |c.volumeKinds| > 0 && 0 < c.volumeWorkers < c.workers
    ensures c.workers > 0 ==> exists w :: 0 <= w < c.workers && Claims(c, w, kind)
  {
    if IsSplit(c) {
      assert Claims(c, 0, c.volumeKinds[0]) && !Claims(c, c.volumeWorkers, c.volumeKinds[0]);
      assert Claims(c, 0, kind) || Claims(c, c.volumeWorkers, kind);
    } else {
      assert Claims(c, 0, kind);
    }
  }

  /** With the pool split, workers of one sub-pool agree on every kind and workers of
      different ones disagree; so each kind has exactly one sub-pool, and none is stranded. */
  lemma EveryKindHasOnePool(c: Config, k: Kind)
    requires IsSplit(c)
    ensures forall v, w :: 0 <= v < c.workers && 0 <= w < c.workers ==>
              (Claims(c, v, k) == Claims(c, w, k) <==> (v < c.volumeWorkers <==> w < c.volumeWorkers))
    ensures exists w :: 0 <= w < c.workers && Claims(c, w, k)
  {
    assert Claims(c, 0, k) != Claims(c, c.volumeWorkers, k);
  }

  // ----- The cancel registry -----

  /** What is in flight and its canceled flags, under the runner's mutex. Each method is one
      critical section and one step of the system above. */
  class Registry {
    const c: Config
    var inflight: map<Id, bool>
    /** The system this registry is part of. */
    ghost var s: State

    ghost predicate Valid()
      reads this
    {
      inflight == s.inflight && Inv(c, s)
    }

    constructor (c: Config)
      ensures Valid() && s == START && this.c == c
    {
      this.c, inflight, s := c, map[], START;
    }

    ghost method Take(step: Step)
      requires Inv(c, s) && Enabled(c, s, step)
      modifies `s
      ensures s == Next(c, old(s), step) && Inv(c, s)
    {
      NextKeeps(c, s, step);
      s := Next(c, s, step);
    }

    /** What happens elsewhere: claims, store writes, a cancellation on a row. */
    ghost method Elsewhere(step: Step)
      requires Valid() && Enabled(c, s, step)
      requires step.Enqueue? || step.Claim? || step.Record? || step.RecordFails? || step.CancelQueued?
               || step.CancelReconciling? || step.Resolve?
      modifies `s
      ensures Valid() && s == Next(c, old(s), step)
    {
      Take(step);
    }

    /** From here on the handler's job can be canceled; it has not been yet. */
    method Register(id: Id)
      requires Valid() && Enabled(c, s, Step.Register(id)) && s.jobs[id].kind in c.handled
      modifies this
      ensures Valid() && s == Next(c, old(s), Step.Register(id))
      ensures s.jobs[id].phase.Running? && !s.jobs[id].confirmed
    {
      Take(Step.Register(id));
      inflight := inflight[id := false];
    }

    /** True exactly when the job's handler or a reconcile pass is running; the handler's
        job will then be recorded canceled, unless a restart comes first. */
    method Cancel(id: Id) returns (found: bool)
      requires Valid()
      modifies this
      ensures Valid() && s == Next(c, old(s), Step.Cancel(id))
      ensures found <==> id in s.jobs && (s.jobs[id].phase.Running? || IsGoing(s, id))
      ensures found ==> s.jobs[id].confirmed
      ensures !found ==> s == old(s)
    {
      Take(Step.Cancel(id));
      if id !in inflight {
        return false;
      }
      inflight := inflight[id := true];
      return true;
    }

    /** Takes the job out and says how to record it: as canceled exactly when some request
        was confirmed, whatever the handler returned. */
    method Finish(id: Id, ok: bool) returns (outcome: Outcome)
      requires Valid() && id in s.jobs && s.jobs[id].phase.Running?
      modifies this
      ensures Valid() && s == Next(c, old(s), Return(id, ok))
      ensures s.jobs[id].phase.Recording? && s.jobs[id].phase.outcome == outcome
      ensures outcome.Canceled? <==> s.jobs[id].confirmed
      ensures !s.jobs[id].confirmed ==> (outcome.Succeeded? <==> ok)
    {
      assert id in inflight;
      Take(Return(id, ok));
      outcome := if inflight[id] then Canceled else if ok then Succeeded else Failed;
      inflight := inflight - {id};
    }

    /** A pass registers under the same key; no handler has the job. */
    method BeginReconcile(id: Id)
      requires Valid() && Enabled(c, s, BeginPass(id))
      modifies this
      ensures Valid() && s == Next(c, old(s), BeginPass(id))
      ensures id !in old(inflight)
    {
      Take(BeginPass(id));
      inflight := inflight[id := false];
    }

    /** The canceled flag goes with the entry: nothing of it is recorded. */
    method EndReconcile(id: Id, verdict: Verdict)
      requires Valid() && IsGoing(s, id)
      modifies this
      ensures Valid() && s == Next(c, old(s), EndPass(id, verdict))
      ensures s.jobs == old(s.jobs)
    {
      Take(EndPass(id, verdict));
      inflight := inflight - {id};
    }

    /** A new process starts with an empty registry. */
    method Reboot()
      requires Valid()
      modifies this
      ensures Valid() && s == Next(c, old(s), Restart)
      ensures s.jobs.Keys == old(s.jobs).Keys
      ensures forall id :: id in s.jobs ==>
                var was, now := old(s.jobs)[id].phase, s.jobs[id].phase;
                if was.Queued? || was.Reconciling? || was.Recorded? then now == was
                else now == if s.jobs[id].kind in c.reconcilable then Reconciling else Recorded(Failed)
    {
      Take(Restart);
      inflight := map[];
    }
  }
}
