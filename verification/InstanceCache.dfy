/** The per-host inventory cache: concurrent misses share one sweep, and a generation
    counter drops a sweep that an invalidation overtook. */
module InstanceCache {
  type Host = string
  type Thread = nat

  /** A host's inventory is modelled by how many changes to the host it reflects. */
  type Version = nat

  datatype Item = Item(obs: Version, reachable: bool)

  /** The fields under the cache's mutex; a host without a generation has generation 0. */
  datatype Cache = Cache(data: map<Host, Item>, inflight: map<Host, Thread>, gen: map<Host, nat>)

  const EMPTY := Cache(map[], map[], map[])

  function Gen(c: Cache, h: Host): nat
  {
    if h in c.gen then c.gen[h] else 0
  }

  // ----- The cache's lock regions -----

  function BeginFetch(c: Cache, h: Host, t: Thread): Cache
  {
    c.(inflight := c.inflight[h := t])
  }

  function Put(c: Cache, h: Host, gen: nat, obs: Version): Cache
  {
    if Gen(c, h) == gen then c.(data := c.data[h := Item(obs, true)]) else c
  }

  function EndFetch(c: Cache, h: Host, gen: nat, ok: bool, obs: Version): Cache
  {
    var done := c.(inflight := c.inflight - {h});
    if ok then Put(done, h, gen, obs) else done
  }

  function MarkUnreachable(c: Cache, h: Host, gen: nat): Cache
  {
    if h in c.data && Gen(c, h) == gen then c.(data := c.data[h := c.data[h].(reachable := false)]) else c
  }

  function Invalidate(c: Cache, h: Host): Cache
  {
    c.(data := c.data - {h}, gen := c.gen[h := Gen(c, h) + 1])
  }

  // ----- Readers, the poller and mutators together -----

  /** A sweep in progress: when it began, and whether readers may join it. */
  datatype Sweep = Sweep(host: Host, gen: nat, began: Version, shared: bool)

  /** `version` counts the changes made to a host, `invalidatedAt` is its value when the
      host was last invalidated. */
  datatype State = State(cache: Cache, sweeps: map<Thread, Sweep>, version: map<Host, Version>,
                         invalidatedAt: map<Host, Version>)

  const START := State(EMPTY, map[], map[], map[])

  function Now(s: State, h: Host): Version
  {
    if h in s.version then s.version[h] else 0
  }

  function Floor(s: State, h: Host): Version
  {
    if h in s.invalidatedAt then s.invalidatedAt[h] else 0
  }

  datatype Step =
    | Mutate(h: Host)
    | Invalidated(h: Host)
    | Miss(t: Thread, h: Host)
    | Refresh(t: Thread, h: Host)
    | Done(t: Thread, ok: bool, obs: Version)

  /** A sweep reports the host as it was at some moment while it ran. */
  predicate Enabled(s: State, step: Step)
  {
    match step
    case Mutate(_) => true
    case Invalidated(_) => true
    case Miss(t, h) => t !in s.sweeps && h !in s.cache.inflight
    case Refresh(t, _) => t !in s.sweeps
    case Done(t, _, obs) => t in s.sweeps && s.sweeps[t].began <= obs <= Now(s, s.sweeps[t].host)
  }

  function Next(s: State, step: Step): State
    requires Enabled(s, step)
  {
    match step
    case Mutate(h) => s.(version := s.version[h := Now(s, h) + 1])
    case Invalidated(h) => s.(cache := Invalidate(s.cache, h), invalidatedAt := s.invalidatedAt[h := Now(s, h)])
    case Miss(t, h) =>
      s.(cache := BeginFetch(s.cache, h, t), sweeps := s.sweeps[t := Sweep(h, Gen(s.cache, h), Now(s, h), true)])
    case Refresh(t, h) => s.(sweeps := s.sweeps[t := Sweep(h, Gen(s.cache, h), Now(s, h), false)])
    case Done(t, ok, obs) =>
      var w := s.sweeps[t];
      var c := if w.shared then EndFetch(s.cache, w.host, w.gen, ok, obs)
               else if ok then Put(s.cache, w.host, w.gen, obs)
               else MarkUnreachable(s.cache, w.host, w.gen);
      s.(cache := c, sweeps := s.sweeps - {t})
  }

  /** The sweep's result reflects the latest invalidation if it may still be stored. */
  predicate SweepOk(s: State, w: Sweep)
  {
    && w.began <= Now(s, w.host)
    && w.gen <= Gen(s.cache, w.host)
    && (w.gen == Gen(s.cache, w.host) ==> Floor(s, w.host) <= w.began)
  }

  /** What is stored reflects every change made before the last invalidation. */
  ghost predicate FreshInv(s: State)
  {
    && (forall h :: Floor(s, h) <= Now(s, h))
    && (forall h :: h in s.cache.data ==> Floor(s, h) <= s.cache.data[h].obs)
    && (forall t :: t in s.sweeps ==> SweepOk(s, s.sweeps[t]))
  }

  /** The shared sweeps are exactly the registered ones. */
  ghost predicate FlightInv(s: State)
  {
    && (forall h :: h in s.cache.inflight ==>
          s.cache.inflight[h] in s.sweeps && s.sweeps[s.cache.inflight[h]].shared
            && s.sweeps[s.cache.inflight[h]].host == h)
    && (forall t :: t in s.sweeps && s.sweeps[t].shared ==>
          s.sweeps[t].host in s.cache.inflight && s.cache.inflight[s.sweeps[t].host] == t)
  }

  lemma InvalidateKeepsFresh(s: State, h: Host)
    requires FreshInv(s)
    ensures FreshInv(Next(s, Invalidated(h)))
  {
    var s' := Next(s, Invalidated(h));
    assert forall x :: Gen(s'.cache, x) == Gen(s.cache, x) + if x == h then 1 else 0;
    assert forall x :: Floor(s', x) == if x == h then Now(s, h) else Floor(s, x);
    assert forall x :: Now(s', x) == Now(s, x);
  }

  lemma DoneKeepsFresh(s: State, t: Thread, ok: bool, obs: Version)
    requires FreshInv(s) && Enabled(s, Done(t, ok, obs))
    ensures FreshInv(Next(s, Done(t, ok, obs)))
  {
    var s' := Next(s, Done(t, ok, obs));
    assert forall x :: Gen(s'.cache, x) == Gen(s.cache, x);
    assert forall x :: Floor(s', x) == Floor(s, x) && Now(s', x) == Now(s, x);
    forall h | h in s'.cache.data ensures Floor(s, h) <= s'.cache.data[h].obs {
    }
  }

  lemma BeginKeepsFresh(s: State, t: Thread, h: Host, step: Step)
    requires FreshInv(s) && Enabled(s, step) && (step == Miss(t, h) || step == Refresh(t, h))
    ensures FreshInv(Next(s, step))
  {
    var s' := Next(s, step);
    assert forall x :: Gen(s'.cache, x) == Gen(s.cache, x) && Floor(s', x) == Floor(s, x) && Now(s', x) == Now(s, x);
    hide Gen, Floor, Now;
  }

  lemma MutateKeepsFresh(s: State, h: Host)
    requires FreshInv(s)
    ensures FreshInv(Next(s, Mutate(h)))
  {
    var s' := Next(s, Mutate(h));
    assert forall x :: Now(s', x) == Now(s, x) + (if x == h then 1 else 0) && Floor(s', x) == Floor(s, x);
  }

  lemma FreshNext(s: State, step: Step)
    requires FreshInv(s) && Enabled(s, step)
    ensures FreshInv(Next(s, step))
  {
    hide FreshInv, Next, Enabled;
    match step
    case Mutate(h) => MutateKeepsFresh(s, h);
    case Invalidated(h) => InvalidateKeepsFresh(s, h);
    case Miss(t, h) => BeginKeepsFresh(s, t, h, step);
    case Refresh(t, h) => BeginKeepsFresh(s, t, h, step);
    case Done(t, ok, obs) => DoneKeepsFresh(s, t, ok, obs);
  }

  lemma FlightNext(s: State, step: Step)
    requires FlightInv(s) && Enabled(s, step)
    ensures FlightInv(Next(s, step))
  {
    if step.Done? {
      DoneKeepsFlight(s, step.t, step.ok, step.obs);
    }
  }

  lemma DoneKeepsFlight(s: State, t: Thread, ok: bool, obs: Version)
    requires FlightInv(s) && Enabled(s, Done(t, ok, obs))
    ensures FlightInv(Next(s, Done(t, ok, obs)))
  {
  }

  predicate IsRun(s: State, steps: seq<Step>)
    decreases |steps|
  {
    steps == [] || (Enabled(s, steps[0]) && IsRun(Next(s, steps[0]), steps[1..]))
  }

  function After(s: State, steps: seq<Step>): State
    requires IsRun(s, steps)
    decreases |steps|
  {
    if steps == [] then s else After(Next(s, steps[0]), steps[1..])
  }

  lemma {:induction false} RunKeeps(s: State, steps: seq<Step>)
    requires FreshInv(s) && FlightInv(s) && IsRun(s, steps)
    ensures FreshInv(After(s, steps)) && FlightInv(After(s, steps))
    decreases |steps|
  {
    hide FreshInv, FlightInv, Next, Enabled;
    if steps == [] {
    } else {
      FreshNext(s, steps[0]);
      FlightNext(s, steps[0]);
      RunKeeps(Next(s, steps[0]), steps[1..]);
    }
  }

  /** Over every interleaving, what a hit would return reflects at least every change made
      before the host's latest invalidation, and no host has two shared sweeps. */
  lemma HitsAreFresh(steps: seq<Step>)
    requires IsRun(START, steps)
    ensures var s := After(START, steps);
            && (forall h :: h in s.cache.data ==> Floor(s, h) <= s.cache.data[h].obs)
            && (forall t, u :: t in s.sweeps && u in s.sweeps && s.sweeps[t].shared && s.sweeps[u].shared ==>
                  (s.sweeps[t].host == s.sweeps[u].host ==> t == u))
  {
    assert FreshInv(START) && FlightInv(START);
    RunKeeps(START, steps);
  }

  /** A failed sweep drops nothing and changes no observation; at most it marks the host
      unreachable. */
  lemma FailureKeepsObservations(s: State, t: Thread, obs: Version)
    requires Enabled(s, Done(t, false, obs))
    ensures var s' := Next(s, Done(t, false, obs));
            && s'.cache.data.Keys == s.cache.data.Keys
            && (forall h :: h in s.cache.data ==> s'.cache.data[h].obs == s.cache.data[h].obs)
            && (forall h :: h in s.cache.data && h != s.sweeps[t].host ==> s'.cache.data[h] == s.cache.data[h])
  {
  }

  // ----- Joining a sweep in flight -----

  /** A run in which this sweep is still going on. */
  predicate Pending(t: Thread, steps: seq<Step>)
  {
    forall k :: 0 <= k < |steps| ==> !(steps[k].Done? && steps[k].t == t)
  }

  /** What a reader that joins the sweep now can be handed when it ends, whatever happens
      in between. */
  ghost predicate Handed(s: State, t: Thread, obs: Version)
  {
    exists steps :: IsRun(s, steps) && Pending(t, steps) && Enabled(After(s, steps), Done(t, true, obs))
  }

  lemma {:induction false} SweepStays(s: State, t: Thread, steps: seq<Step>)
    requires t in s.sweeps && IsRun(s, steps) && Pending(t, steps)
    ensures t in After(s, steps).sweeps && After(s, steps).sweeps[t] == s.sweeps[t]
    decreases |steps|
  {
    if steps == [] {
    } else {
      var s' := Next(s, steps[0]);
      assert t in s'.sweeps && s'.sweeps[t] == s.sweeps[t];
      assert forall k :: 0 <= k < |steps[1..]| ==> steps[1..][k] == steps[k + 1];
      SweepStays(s', t, steps[1..]);
    }
  }

  lemma HandedNow(s: State, t: Thread)
    requires t in s.sweeps && FreshInv(s)
    ensures Handed(s, t, s.sweeps[t].began)
  {
    assert IsRun(s, []) && Pending(t, []) && After(s, []) == s;
  }

  /** Every result a reader that joins the host's sweep can be handed reflects the latest
      invalidation. */
  ghost predicate JoinIsFresh(s: State, h: Host)
    requires h in s.cache.inflight
  {
    forall obs :: Handed(s, s.cache.inflight[h], obs) ==> Floor(s, h) <= obs
  }

  lemma JoinIsFreshAt(s: State, h: Host)
    requires FreshInv(s) && FlightInv(s) && h in s.cache.inflight
    ensures JoinIsFresh(s, h) <==> Floor(s, h) <= s.sweeps[s.cache.inflight[h]].began
  {
    var t := s.cache.inflight[h];
    HandedNow(s, t);
    forall obs | Handed(s, t, obs) ensures s.sweeps[t].began <= obs {
      var steps :| IsRun(s, steps) && Pending(t, steps) && Enabled(After(s, steps), Done(t, true, obs));
      SweepStays(s, t, steps);
    }
  }

  /** In every reachable state: a reader that joins a host's sweep is certain to see every
      change made before the latest invalidation exactly when the sweep began after it,
      and that is so whenever the generation has not moved since. */
  lemma JoinIsFreshIff(run: seq<Step>, s: State, h: Host)
    requires IsRun(START, run) && s == After(START, run) && h in s.cache.inflight
    ensures var t := s.cache.inflight[h];
            && t in s.sweeps
            && (JoinIsFresh(s, h) <==> Floor(s, h) <= s.sweeps[t].began)
            && (s.sweeps[t].gen == Gen(s.cache, h) ==> JoinIsFresh(s, h))
  {
    hide JoinIsFresh;
    assert FreshInv(START) && FlightInv(START);
    RunKeeps(START, run);
    JoinIsFreshAt(s, h);
    assert SweepOk(s, s.sweeps[s.cache.inflight[h]]);
  }

  /** It does happen that the sweep is older: a reader that joins after an invalidation may
      be handed what the host was before it, though that result is not stored. */
  lemma JoinedSweepMayBeOlder(t: Thread, h: Host)
    ensures var steps := [Miss(t, h), Mutate(h), Invalidated(h)];
            && IsRun(START, steps)
            && var s := After(START, steps);
               && h in s.cache.inflight && Floor(s, h) == 1
               && Enabled(s, Done(t, true, 0)) && h !in Next(s, Done(t, true, 0)).cache.data
  {
    var s1 := Next(START, Miss(t, h));
    var s2 := Next(s1, Mutate(h));
    var s3 := Next(s2, Invalidated(h));
    var steps := [Miss(t, h), Mutate(h), Invalidated(h)];
    assert steps[1..] == [Mutate(h), Invalidated(h)] && steps[1..][1..] == [Invalidated(h)]
           && steps[1..][1..][1..] == [];
    assert IsRun(s3, []) && After(s3, []) == s3;
    assert IsRun(s2, [Invalidated(h)]) && After(s2, [Invalidated(h)]) == s3;
    assert IsRun(s1, steps[1..]) && After(s1, steps[1..]) == s3;
  }

  // ----- What a sweep leaves behind -----

  lemma {:induction false} GenMovesIff(s: State, h: Host, steps: seq<Step>)
    requires IsRun(s, steps)
    ensures Gen(After(s, steps).cache, h) >= Gen(s.cache, h)
    ensures Gen(After(s, steps).cache, h) == Gen(s.cache, h) <==> Invalidated(h) !in steps
    decreases |steps|
  {
    if steps == [] {
    } else {
      var s' := Next(s, steps[0]);
      assert Gen(s'.cache, h) == Gen(s.cache, h) + if steps[0] == Invalidated(h) then 1 else 0;
      GenMovesIff(s', h, steps[1..]);
      assert steps == [steps[0]] + steps[1..];
      hide Next, Enabled, Gen;
    }
  }

  /** Whatever happens meanwhile, what a sweep finds is stored exactly when the host was not
      invalidated while it ran; and if it fails, a refresh in that case marks what is stored
      unreachable, and nothing else changes. */
  lemma SweepLandsIff(s: State, start: Step, t: Thread, h: Host, steps: seq<Step>, obs: Version)
    requires (start == Miss(t, h) || start == Refresh(t, h)) && Enabled(s, start)
    requires IsRun(Next(s, start), steps) && Pending(t, steps)
    requires Enabled(After(Next(s, start), steps), Done(t, true, obs))
    ensures var s' := After(Next(s, start), steps);
            var found, failed := Next(s', Done(t, true, obs)).cache.data, Next(s', Done(t, false, obs)).cache.data;
            if Invalidated(h) in steps then found == s'.cache.data && failed == s'.cache.data
            else
              && found == s'.cache.data[h := Item(obs, true)]
              && failed == if start.Refresh? && h in s'.cache.data
                           then s'.cache.data[h := s'.cache.data[h].(reachable := false)] else s'.cache.data
  {
    var s1 := Next(s, start);
    assert s1.sweeps[t] == Sweep(h, Gen(s1.cache, h), Now(s, h), start.Miss?);
    SweepStays(s1, t, steps);
    GenMovesIff(s1, h, steps);
    hide IsRun, After;
  }

  // ----- The cache object -----

  datatype Lookup = Hit(item: Item) | Join(fetcher: Thread) | Fetch(gen: nat)

  /** Each method is one critical section, and one step of the system above; between them
      the hosts change. */
  class HostCache {
    var warm: bool
    var data: map<Host, Item>
    var inflight: map<Host, Thread>
    var gen: map<Host, nat>
    /** The system this cache is part of. */
    ghost var s: State

    ghost predicate Valid()
      reads this
    {
      s.cache == Cache(data, inflight, gen) && FreshInv(s) && FlightInv(s)
    }

    constructor (warm: bool)
      ensures Valid() && s == START && this.warm == warm
    {
      this.warm, data, inflight, gen, s := warm, map[], map[], map[], START;
    }

    ghost method Take(step: Step)
      requires FreshInv(s) && FlightInv(s) && Enabled(s, step)
      modifies `s
      ensures s == Next(old(s), step) && FreshInv(s) && FlightInv(s)
    {
      FreshNext(s, step);
      FlightNext(s, step);
      s := Next(s, step);
    }

    /** Serves the entry, joins the sweep in flight, or starts one. What is served reflects
        every change made before the host's latest invalidation. */
    method Get(h: Host, t: Thread, expired: bool) returns (r: Lookup)
      requires Valid() && t !in s.sweeps
      modifies `inflight, `s
      ensures Valid()
      ensures r.Hit? <==> h in data && (warm || !expired)
      ensures r.Hit? ==> r.item == data[h] && Floor(s, h) <= r.item.obs
      ensures r.Join? ==> h in s.cache.inflight && s.cache.inflight[h] == r.fetcher && r.fetcher in s.sweeps
      ensures r.Join? ==> (JoinIsFresh(s, h) <==> Floor(s, h) <= s.sweeps[r.fetcher].began)
      ensures r.Fetch? ==> h !in old(s.cache.inflight) && s == Next(old(s), Miss(t, h)) && s.sweeps[t].gen == r.gen
      ensures !r.Fetch? ==> s == old(s)
    {
      hide JoinIsFresh;
      if h in data && (warm || !expired) {
        return Hit(data[h]);
      }
      if h in inflight {
        JoinIsFreshAt(s, h);
        return Join(inflight[h]);
      }
      Take(Miss(t, h));
      inflight := inflight[h := t];
      return Fetch(if h in gen then gen[h] else 0);
    }

    /** A sweep's end: its result is stored only if no invalidation came after its start,
        so what is stored still reflects everything before the latest one. */
    method Complete(h: Host, started: nat, ok: bool, obs: Version, ghost t: Thread)
      requires Valid() && Enabled(s, Done(t, ok, obs)) && s.sweeps[t].shared && s.sweeps[t].host == h
               && s.sweeps[t].gen == started
      modifies `data, `inflight, `s
      ensures Valid() && s == Next(old(s), Done(t, ok, obs))
      ensures ok && old(s.sweeps[t].began) < Floor(s, h) ==> data == old(data)
    {
      Take(Done(t, ok, obs));
      inflight := inflight - {h};
      if ok && (if h in gen then gen[h] else 0) == started {
        data := data[h := Item(obs, true)];
      }
    }

    /** A refresh begins; nobody may join it, and a reader's sweep may run beside it. */
    method BeginRefresh(h: Host, ghost t: Thread) returns (g: nat)
      requires Valid() && t !in s.sweeps
      modifies `s
      ensures Valid() && s == Next(old(s), Refresh(t, h))
      ensures s.sweeps[t].gen == g && s.sweeps[t].began == Now(s, h) && !s.sweeps[t].shared
    {
      Take(Refresh(t, h));
      return if h in gen then gen[h] else 0;
    }

    method Store(h: Host, started: nat, obs: Version, ghost t: Thread)
      requires Valid() && Enabled(s, Done(t, true, obs)) && !s.sweeps[t].shared && s.sweeps[t].host == h
               && s.sweeps[t].gen == started
      modifies `data, `s
      ensures Valid() && s == Next(old(s), Done(t, true, obs))
      ensures old(s.sweeps[t].began) < Floor(s, h) ==> data == old(data)
    {
      Take(Done(t, true, obs));
      if (if h in gen then gen[h] else 0) == started {
        data := data[h := Item(obs, true)];
      }
    }

    /** A failed refresh never drops an entry or touches what it observed. */
    method Unreachable(h: Host, started: nat, ghost t: Thread)
      requires Valid() && t in s.sweeps && !s.sweeps[t].shared && s.sweeps[t].host == h && s.sweeps[t].gen == started
      modifies `data, `s
      ensures Valid() && s == Next(old(s), Done(t, false, old(s.sweeps[t].began)))
      ensures data.Keys == old(data.Keys) && forall x :: x in data ==> data[x].obs == old(data[x].obs)
    {
      Take(Done(t, false, s.sweeps[t].began));
      if h in data && (if h in gen then gen[h] else 0) == started {
        data := data[h := data[h].(reachable := false)];
      }
    }

    /** Read-your-writes for the mutator: from here on a hit reflects all changes so far,
        and no sweep begun before them can be stored. */
    method Drop(h: Host)
      requires Valid()
      modifies `data, `gen, `s
      ensures Valid() && s == Next(old(s), Invalidated(h))
      ensures h !in data && Floor(s, h) == Now(s, h)
      ensures forall t :: t in s.sweeps && s.sweeps[t].host == h ==> s.sweeps[t].gen < Gen(s.cache, h)
    {
      Take(Invalidated(h));
      data := data - {h};
      gen := gen[h := (if h in gen then gen[h] else 0) + 1];
    }

    /** Something changes on a host. */
    ghost method Changed(h: Host)
      requires Valid()
      modifies `s
      ensures Valid() && s == Next(old(s), Mutate(h))
    {
      Take(Mutate(h));
    }
  }
}
