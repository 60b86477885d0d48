/** The draining SSH tunnel: closing it stops new forwards, and its client is closed once
    the forwards in flight are done, a grace period ends, or the connection is dead. */
module Tunnel {
  import opened Options

  /** Why someone is about to finish the tunnel. */
  datatype Reason = Idle | Drained | Grace | Dead

  /** The fields under the tunnel's mutex; `armed` is the grace timer. */
  datatype Fields = Fields(active: nat, closing: bool, closed: bool, armed: bool)

  const OPEN := Fields(0, false, false, false)

  predicate CanBegin(f: Fields)
  {
    !f.closed && !f.closing
  }

  function AfterBegin(f: Fields): Fields
  {
    if CanBegin(f) then f.(active := f.active + 1) else f
  }

  predicate EndFinishes(f: Fields)
  {
    f.closing && f.active == 1
  }

  function AfterEnd(f: Fields): Fields
    requires f.active > 0
  {
    f.(active := f.active - 1)
  }

  predicate CloseFinishes(f: Fields)
  {
    !f.closing && !f.closed && f.active == 0
  }

  function AfterClose(f: Fields): Fields
  {
    if f.closing || f.closed then f else f.(closing := true, armed := f.active != 0 || f.armed)
  }

  function AfterShutdown(f: Fields): Fields
  {
    f.(closing := true)
  }

  function AfterFinish(f: Fields): Fields
  {
    if f.closed then f else f.(closed := true, armed := false)
  }

  // ----- Accept loop, forwards, closers, timer and watchdog together -----

  /** `finishers` are on their way to `Finish`; `closer` won and is about to close the
      client; `closes` counts client closes and `why` is the reason of the one that won. */
  datatype State = State(f: Fields, finishers: multiset<Reason>, closer: bool, closes: nat, why: Option<Reason>)

  const START := State(OPEN, multiset{}, false, 0, None)

  datatype Step = Begin | End | Close | TimerFires | Shutdown | Finish(r: Reason) | CloseClient

  predicate Enabled(s: State, step: Step)
  {
    match step
    case End => s.f.active > 0
    case TimerFires => s.f.armed
    case Finish(r) => r in s.finishers
    case CloseClient => s.closer
    case _ => true
  }

  function Send(s: State, r: Reason): State
  {
    s.(finishers := s.finishers + multiset{r})
  }

  function Next(s: State, step: Step): State
    requires Enabled(s, step)
  {
    match step
    case Begin => s.(f := AfterBegin(s.f))
    case End =>
      var s' := s.(f := AfterEnd(s.f));
      if EndFinishes(s.f) then Send(s', Drained) else s'
    case Close =>
      var s' := s.(f := AfterClose(s.f));
      if CloseFinishes(s.f) then Send(s', Idle) else s'
    case TimerFires => Send(s.(f := s.f.(armed := false)), Grace)
    case Shutdown => Send(s.(f := AfterShutdown(s.f)), Dead)
    case Finish(r) =>
      var s' := s.(f := AfterFinish(s.f), finishers := s.finishers - multiset{r});
      if s.f.closed then s' else s'.(closer := true, why := Some(r))
    case CloseClient => s.(closer := false, closes := s.closes + 1)
  }

  predicate Gentle(r: Reason)
  {
    r.Idle? || r.Drained?
  }

  /** Once closing, whoever finishes gently finds no forward active, and until the client
      is on its way to be closed someone is bound to finish. */
  ghost predicate Inv(s: State)
  {
    && s.closes + (if s.closer then 1 else 0) == (if s.f.closed then 1 else 0)
    && (s.f.closed <==> s.why.Some?)
    && (s.f.closed ==> s.f.closing)
    && (s.f.armed ==> s.f.closing)
    && (s.finishers != multiset{} ==> s.f.closing)
    && (Idle in s.finishers || Drained in s.finishers ==> s.f.active == 0)
    && (s.why.Some? && Gentle(s.why.value) ==> s.f.active == 0)
    && (s.f.closing && !s.f.closed ==> s.finishers != multiset{} || (s.f.active > 0 && s.f.armed))
  }

  lemma FinishKeeps(s: State, r: Reason)
    requires Inv(s) && r in s.finishers
    ensures Inv(Next(s, Finish(r)))
  {
  }

  /** A forward that ends, a close, the timer and the watchdog. */
  lemma SignalKeeps(s: State, step: Step)
    requires Inv(s) && Enabled(s, step) && (step.End? || step.Close? || step.TimerFires? || step.Shutdown?)
    ensures Inv(Next(s, step))
  {
  }

  lemma NextKeeps(s: State, step: Step)
    requires Inv(s) && Enabled(s, step)
    ensures Inv(Next(s, step))
  {
    match step
    case Begin =>
    case CloseClient =>
    case Finish(r) => FinishKeeps(s, r);
    case _ => SignalKeeps(s, step);
  }

  predicate IsRun(s: State, steps: seq<Step>)
    decreases |steps|
  {
    steps == [] || (Enabled(s, steps[0]) && IsRun(Next(s, steps[0]), steps[1..]))
  }

  function After(s: State, steps: seq<Step>): State
    requires IsRun(s, steps)
    decreases |steps|
  {
    if steps == [] then s else After(Next(s, steps[0]), steps[1..])
  }

  lemma {:induction false} RunKeeps(s: State, steps: seq<Step>)
    requires Inv(s) && IsRun(s, steps)
    ensures Inv(After(s, steps))
    decreases |steps|
  {
    hide Inv, Next, Enabled;
    if steps == [] {
    } else {
      NextKeeps(s, steps[0]);
      RunKeeps(Next(s, steps[0]), steps[1..]);
    }
  }

  /** Over every interleaving: the client is closed at most once; it is closed with a
      forward active only by the grace timer or a dead connection; and once closing, with
      the last forward ended, it is closed, being closed, or someone is on the way to. */
  lemma DrainSafety(steps: seq<Step>)
    requires IsRun(START, steps)
    ensures var s := After(START, steps);
            && s.closes <= 1
            && (s.closes == 1 && s.f.active > 0 ==> s.why == Some(Grace) || s.why == Some(Dead))
            && (s.f.closing && s.f.active == 0 ==> s.closes == 1 || s.closer || s.finishers != multiset{})
            && (s.f.closing ==> !CanBegin(s.f))
  {
    RunKeeps(START, steps);
  }

  lemma {:induction false} RunAppend(s: State, steps: seq<Step>, step: Step)
    requires IsRun(s, steps) && Enabled(After(s, steps), step)
    ensures IsRun(s, steps + [step]) && After(s, steps + [step]) == Next(After(s, steps), step)
    decreases |steps|
  {
    hide Next, Enabled;
    var all := steps + [step];
    if steps == [] {
      assert all == [step] && all[1..] == [];
    } else {
      RunAppend(Next(s, steps[0]), steps[1..], step);
      assert all[1..] == steps[1..] + [step];
    }
  }

  /** A forward begins, the tunnel is closed, the forward ends, and that alone closes the
      client, gently. */
  lemma DrainHappens() returns (steps: seq<Step>)
    ensures IsRun(START, steps)
    ensures After(START, steps) == State(Fields(0, true, true, false), multiset{}, false, 1, Some(Drained))
  {
    steps := [];
    assert IsRun(START, steps) && After(START, steps) == START;
    hide IsRun, After;
    RunAppend(START, steps, Begin);
    steps := steps + [Begin];
    RunAppend(START, steps, Close);
    steps := steps + [Close];
    RunAppend(START, steps, End);
    steps := steps + [End];
    RunAppend(START, steps, Finish(Drained));
    steps := steps + [Finish(Drained)];
    RunAppend(START, steps, CloseClient);
    steps := steps + [CloseClient];
  }

  lemma {:induction false} ClosingStays(s: State, steps: seq<Step>)
    requires s.f.closing && IsRun(s, steps)
    ensures After(s, steps).f.closing && After(s, steps).f.active <= s.f.active
    decreases |steps|
  {
    if steps == [] {
    } else {
      ClosingStays(Next(s, steps[0]), steps[1..]);
    }
  }

  /** Once closed, always closed; and the client has been closed exactly when it had been
      before or the closer has moved since. */
  lemma {:induction false} ClosedStays(s: State, steps: seq<Step>)
    requires Inv(s) && IsRun(s, steps)
    ensures s.f.closed ==> After(s, steps).f.closed
    ensures After(s, steps).closes == 1 <==> s.closes == 1 || CloseClient in steps
    decreases |steps|
  {
    if steps == [] {
    } else {
      var s' := Next(s, steps[0]);
      NextKeeps(s, steps[0]);
      ClosedStays(s', steps[1..]);
      assert steps == [steps[0]] + steps[1..];
      assert s'.closes == 1 <==> s.closes == 1 || steps[0] == CloseClient;
    }
  }

  lemma {:induction false} RunSplit(s: State, steps: seq<Step>, k: nat)
    requires k <= |steps| && IsRun(s, steps)
    ensures IsRun(s, steps[..k]) && IsRun(After(s, steps[..k]), steps[k..])
    ensures After(s, steps) == After(After(s, steps[..k]), steps[k..])
    decreases k
  {
    hide Next, Enabled;
    if k == 0 {
      assert steps[..0] == [] && steps[0..] == steps;
    } else {
      RunSplit(Next(s, steps[0]), steps[1..], k - 1);
      assert steps[..k][1..] == steps[1..][..k - 1] && steps[k..] == steps[1..][k - 1..] && steps[..k][0] == steps[0];
    }
  }

  /** Progress, over every run: a closing tunnel that is not closed yet has a finisher, or
      an armed timer to send one; once any of them has moved it is closed for good, and
      the client is closed as soon as the closer has moved, which nothing can prevent. */
  lemma DrainCompletes(s: State, steps: seq<Step>, r: Reason)
    requires Inv(s) && s.f.closing && IsRun(s, steps)
    ensures !s.f.closed ==> s.finishers != multiset{} || (s.f.active > 0 && s.f.armed)
    ensures Finish(r) in steps ==>
              var s' := After(s, steps);
              && s'.f.closed && (s'.closes == 1 || Enabled(s', CloseClient))
              && (s'.closes == 1 <==> s.closes == 1 || CloseClient in steps)
  {
    hide Next;
    if Finish(r) in steps {
      var k :| 0 <= k < |steps| && steps[k] == Finish(r);
      RunSplit(s, steps, k);
      var mid, rest := After(s, steps[..k]), steps[k..];
      RunKeeps(s, steps[..k]);
      assert rest[0] == Finish(r);
      FinishKeeps(mid, r);
      FinishCloses(mid, r);
      ClosedStays(Next(mid, Finish(r)), rest[1..]);
      RunKeeps(s, steps);
      ClosedStays(s, steps);
    }
  }

  lemma FinishCloses(s: State, r: Reason)
    requires r in s.finishers
    ensures Next(s, Finish(r)).f.closed
  {
  }

  // ----- The tunnel object -----

  /** Each method is one critical section, one step of the system above, and returns what
      its caller must do after unlocking. */
  class SshTunnel {
    var active: nat
    var closing: bool
    var closed: bool
    var armed: bool
    /** The system this tunnel is part of. */
    ghost var s: State

    ghost predicate Valid()
      reads this
    {
      s.f == Fields(active, closing, closed, armed) && Inv(s)
    }

    constructor ()
      ensures Valid() && s == START
    {
      active, closing, closed, armed, s := 0, false, false, false, START;
    }

    ghost method Take(step: Step)
      requires Inv(s) && Enabled(s, step)
      modifies `s
      ensures s == Next(old(s), step) && Inv(s)
    {
      NextKeeps(s, step);
      s := Next(s, step);
    }

    /** A forward is let in only while the client is neither closed nor about to be. */
    method Begin() returns (ok: bool)
      requires Valid()
      modifies `active, `s
      ensures Valid() && s == Next(old(s), Step.Begin)
      ensures ok <==> !old(closing) && !old(closed)
      ensures active == old(active) + if ok then 1 else 0
      ensures ok ==> s.closes == 0 && !s.closer && s.finishers == multiset{}
    {
      Take(Step.Begin);
      if closed || closing {
        return false;
      }
      active := active + 1;
      return true;
    }

    /** The caller told to finish knows that no forward is left and none can begin. */
    method End() returns (finish: bool)
      requires Valid() && active > 0
      modifies `active, `s
      ensures Valid() && s == Next(old(s), Step.End)
      ensures finish <==> closing && active == 0
      ensures finish ==> Drained in s.finishers && active == 0 && !CanBegin(s.f)
      ensures !finish ==> s.finishers == old(s.finishers)
    {
      Take(Step.End);
      active := active - 1;
      finish := closing && active == 0;
    }

    /** Draining starts: the client is closed, or someone is bound to close it. */
    method Close() returns (finish: bool)
      requires Valid()
      modifies `closing, `armed, `s
      ensures Valid() && s == Next(old(s), Step.Close)
      ensures finish <==> !old(closing) && !old(closed) && active == 0
      ensures finish ==> Idle in s.finishers
      ensures old(closing) || old(closed) ==> s == old(s)
      ensures closing && (closed || s.finishers != multiset{} || (active > 0 && armed))
    {
      Take(Step.Close);
      if closing || closed {
        return false;
      }
      closing := true;
      if active != 0 {
        armed := true;
      }
      return active == 0;
    }

    /** The connection is dead: whatever is in flight, the caller is to finish at once. */
    method Shutdown()
      requires Valid()
      modifies `closing, `s
      ensures Valid() && s == Next(old(s), Step.Shutdown)
      ensures Dead in s.finishers && !CanBegin(s.f)
    {
      Take(Step.Shutdown);
      closing := true;
    }

    /** True for the one caller that is to close the client, which nobody has closed; for
        any other, somebody has or is about to. Whoever comes gently cuts no forward off. */
    method Finish(ghost r: Reason) returns (closes: bool)
      requires Valid() && r in s.finishers
      modifies `closed, `armed, `s
      ensures Valid() && s == Next(old(s), Step.Finish(r))
      ensures closes <==> !old(closed)
      ensures closes ==> s.closer && s.closes == 0
      ensures !closes ==> old(s.closer) || s.closes == 1
      ensures closes && Gentle(r) ==> active == 0
      ensures closed && (closes ==> !armed)
    {
      Take(Step.Finish(r));
      if closed {
        return false;
      }
      closed, armed := true, false;
      return true;
    }

    /** The grace timer fires. */
    method Fire()
      requires Valid() && armed
      modifies `armed, `s
      ensures Valid() && s == Next(old(s), TimerFires) && Grace in s.finishers && !armed
    {
      Take(TimerFires);
      armed := false;
    }
  }
}
