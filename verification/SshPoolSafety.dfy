/** Ownership of SSH connections over every interleaving of connects, invalidations and
    host reloads. */
module SshPoolSafety {
  import opened Options
  import opened SshPool

  predicate HasGate(pc: Pc)
  {
    pc.Holding? || pc.Taking? || pc.Dialing? || pc.Dialed?
  }

  predicate Connecting(pc: Pc)
  {
    pc.Dialing? || pc.Dialed?
  }

  /** An entry is in the pool exactly while it is not retired, and once retired it holds
      no client. */
  ghost predicate PoolInv(pool: map<Host, EntryId>, entries: map<EntryId, Entry>)
  {
    && (forall h :: h in pool ==> pool[h] in entries && !entries[pool[h]].retired)
    && (forall h, g :: h in pool && g in pool && h != g ==> pool[h] != pool[g])
    && (forall e :: e in entries && !entries[e].retired ==> Pooled(pool, e))
    && (forall e :: e in entries && entries[e].retired ==> entries[e].client.None?)
  }

  ghost predicate Pooled(pool: map<Host, EntryId>, e: EntryId)
  {
    exists h :: h in pool && pool[h] == e
  }

  /** The gate is held by exactly the caller that is past it, and while that caller dials
      the entry has no client to lose. */
  ghost predicate GateInv(entries: map<EntryId, Entry>, gates: map<EntryId, Thread>, pcs: map<Thread, Pc>)
  {
    && (forall t :: t in pcs && !pcs[t].Idle? ==> pcs[t].entry in entries)
    && (forall t :: t in pcs && HasGate(pcs[t]) ==> pcs[t].entry in gates && gates[pcs[t].entry] == t)
    && (forall e :: e in gates ==> gates[e] in pcs && HasGate(pcs[gates[e]]) && pcs[gates[e]].entry == e)
    && (forall t :: t in pcs && Connecting(pcs[t]) && pcs[t].entry in entries ==> entries[pcs[t].entry].client.None?)
  }

  /** Every client ever dialed has one owner: the entry that holds it, the caller that
      just dialed it, or it was handed to close, once. */
  ghost predicate OwnerInv(entries: map<EntryId, Entry>, pcs: map<Thread, Pc>, closed: multiset<Client>,
                           dialedWith: map<Client, Params>, owner: map<Client, Owner>)
  {
    && owner.Keys == dialedWith.Keys
    && (forall e :: e in entries && entries[e].client.Some? ==>
          HeldBy(entries[e].client.value, ByEntry(e), entries[e].params, dialedWith, owner))
    && (forall t :: t in pcs && pcs[t].Dialed? ==> HeldBy(pcs[t].client, ByThread(t), pcs[t].want, dialedWith, owner))
    && (forall c :: c in owner && owner[c].ByEntry? ==>
          owner[c].entry in entries && entries[owner[c].entry].client == Some(c))
    && (forall c :: c in owner && owner[c].ByThread? ==>
          owner[c].thread in pcs && pcs[owner[c].thread].Dialed? && pcs[owner[c].thread].client == c)
    && (forall c :: closed[c] == if c in owner && owner[c].Closed? then 1 else 0)
  }

  predicate HeldBy(c: Client, who: Owner, params: Params, dialedWith: map<Client, Params>, owner: map<Client, Owner>)
  {
    c in owner && owner[c] == who && c in dialedWith && dialedWith[c] == params
  }

  /** A caller only ever uses a client dialed with the parameters it asked for. */
  ghost predicate UseInv(pcs: map<Thread, Pc>, dialedWith: map<Client, Params>)
  {
    forall t :: t in pcs && pcs[t].Using? ==> pcs[t].client in dialedWith && dialedWith[pcs[t].client] == pcs[t].want
  }

  ghost predicate Inv(s: State)
  {
    && PoolInv(s.pool, s.entries)
    && GateInv(s.entries, s.gates, s.pcs)
    && OwnerInv(s.entries, s.pcs, s.closed, s.dialedWith, s.owner)
    && UseInv(s.pcs, s.dialedWith)
  }

  // ----- The pool -----

  lemma PoolAdd(pool: map<Host, EntryId>, entries: map<EntryId, Entry>, host: Host, id: EntryId)
    requires PoolInv(pool, entries) && host !in pool && id !in entries
    ensures PoolInv(pool[host := id], entries[id := NEW_ENTRY])
  {
    var more := pool[host := id];
    assert more[host] == id;
    forall e | Pooled(pool, e) ensures Pooled(more, e) {
      var h :| h in pool && pool[h] == e;
      assert h in more && more[h] == e;
    }
  }

  lemma PoolSet(pool: map<Host, EntryId>, entries: map<EntryId, Entry>, e: EntryId, entry: Entry)
    requires PoolInv(pool, entries) && e in entries
    requires entry.retired == entries[e].retired && (entry.retired ==> entry.client.None?)
    ensures PoolInv(pool, entries[e := entry])
  {
  }

  lemma PoolRetire(pool: map<Host, EntryId>, entries: map<EntryId, Entry>, host: Host)
    requires PoolInv(pool, entries) && host in pool
    ensures PoolInv(pool - {host}, entries[pool[host] := Retired(entries[pool[host]])])
  {
    var fewer := pool - {host};
    forall e | Pooled(pool, e) && e != pool[host] ensures Pooled(fewer, e) {
      var h :| h in pool && pool[h] == e;
      assert h in fewer && fewer[h] == e;
    }
  }

  // ----- The gates -----

  lemma GateMove(entries: map<EntryId, Entry>, gates: map<EntryId, Thread>, pcs: map<Thread, Pc>, t: Thread, pc: Pc)
    requires GateInv(entries, gates, pcs)
    requires t in pcs ==> !HasGate(pcs[t])
    requires !HasGate(pc) && (pc.Idle? || pc.entry in entries)
    ensures GateInv(entries, gates, pcs[t := pc])
  {
  }

  lemma GateAcquire(entries: map<EntryId, Entry>, gates: map<EntryId, Thread>, pcs: map<Thread, Pc>, t: Thread,
                    want: Params)
    requires GateInv(entries, gates, pcs)
    requires t in pcs && pcs[t].Waiting? && pcs[t].entry !in gates
    ensures GateInv(entries, gates[pcs[t].entry := t], pcs[t := Holding(pcs[t].entry, want)])
  {
  }

  lemma GateAdvance(entries: map<EntryId, Entry>, gates: map<EntryId, Thread>, pcs: map<Thread, Pc>, t: Thread, pc: Pc)
    requires GateInv(entries, gates, pcs)
    requires t in pcs && HasGate(pcs[t]) && HasGate(pc) && pc.entry == pcs[t].entry
    requires Connecting(pc) ==> pc.entry in entries && entries[pc.entry].client.None?
    ensures GateInv(entries, gates, pcs[t := pc])
  {
  }

  lemma GateRelease(entries: map<EntryId, Entry>, gates: map<EntryId, Thread>, pcs: map<Thread, Pc>, t: Thread, pc: Pc)
    requires GateInv(entries, gates, pcs)
    requires t in pcs && HasGate(pcs[t]) && !HasGate(pc) && (pc.Idle? || pc.entry in entries)
    ensures GateInv(entries, gates - {pcs[t].entry}, pcs[t := pc])
  {
  }

  /** Nobody but the gate's holder gives an entry a client. */
  lemma GateSet(entries: map<EntryId, Entry>, gates: map<EntryId, Thread>, pcs: map<Thread, Pc>, e: EntryId,
                entry: Entry)
    requires GateInv(entries, gates, pcs)
    requires entry.client.None? || e !in gates
    ensures GateInv(entries[e := entry], gates, pcs)
  {
  }

  // ----- Ownership -----

  lemma OwnerMove(s: State, t: Thread, pc: Pc)
    requires OwnerInv(s.entries, s.pcs, s.closed, s.dialedWith, s.owner)
    requires (t in s.pcs ==> !s.pcs[t].Dialed?) && !pc.Dialed?
    ensures OwnerInv(s.entries, s.pcs[t := pc], s.closed, s.dialedWith, s.owner)
  {
  }

  lemma OwnerSet(s: State, e: EntryId, entry: Entry)
    requires OwnerInv(s.entries, s.pcs, s.closed, s.dialedWith, s.owner)
    requires e in s.entries && s.entries[e].client.None? && entry.client.None?
    ensures OwnerInv(s.entries[e := entry], s.pcs, s.closed, s.dialedWith, s.owner)
  {
  }

  /** Taking a client out of its entry hands it to close, once. */
  lemma OwnerClose(s: State, e: EntryId, entry: Entry, c: Client)
    requires OwnerInv(s.entries, s.pcs, s.closed, s.dialedWith, s.owner)
    requires e in s.entries && s.entries[e].client == Some(c) && entry.client.None?
    ensures OwnerInv(s.entries[e := entry], s.pcs, s.closed + multiset{c}, s.dialedWith, s.owner[c := Closed])
  {
    assert s.owner[c] == ByEntry(e) && s.closed[c] == 0;
  }

  lemma OwnerDetach(s: State, e: EntryId, entry: Entry)
    requires OwnerInv(s.entries, s.pcs, s.closed, s.dialedWith, s.owner)
    requires e in s.entries && entry.client.None?
    ensures var s' := Close(s, s.entries[e].client);
            OwnerInv(s.entries[e := entry], s.pcs, s'.closed, s.dialedWith, s'.owner)
  {
    hide OwnerInv;
    if s.entries[e].client.None? {
      OwnerSet(s, e, entry);
    } else {
      OwnerClose(s, e, entry, s.entries[e].client.value);
    }
  }

  lemma OwnerAdd(s: State, id: EntryId)
    requires OwnerInv(s.entries, s.pcs, s.closed, s.dialedWith, s.owner) && id !in s.entries
    ensures OwnerInv(s.entries[id := NEW_ENTRY], s.pcs, s.closed, s.dialedWith, s.owner)
  {
  }

  lemma OwnerDial(s: State, t: Thread, pc: Pc)
    requires OwnerInv(s.entries, s.pcs, s.closed, s.dialedWith, s.owner)
    requires t in s.pcs && !s.pcs[t].Dialed? && pc.Dialed? && pc.client !in s.dialedWith
    ensures OwnerInv(s.entries, s.pcs[t := pc], s.closed, s.dialedWith[pc.client := pc.want],
                     s.owner[pc.client := ByThread(t)])
  {
  }

  lemma OwnerKeep(s: State, t: Thread, e: EntryId, entry: Entry, pc: Pc)
    requires OwnerInv(s.entries, s.pcs, s.closed, s.dialedWith, s.owner)
    requires t in s.pcs && s.pcs[t].Dialed? && !pc.Dialed?
    requires e in s.entries && s.entries[e].client.None?
    requires entry.client == Some(s.pcs[t].client) && entry.params == s.pcs[t].want
    ensures OwnerInv(s.entries[e := entry], s.pcs[t := pc], s.closed, s.dialedWith,
                     s.owner[s.pcs[t].client := ByEntry(e)])
  {
  }

  lemma OwnerDiscard(s: State, t: Thread, pc: Pc)
    requires OwnerInv(s.entries, s.pcs, s.closed, s.dialedWith, s.owner)
    requires t in s.pcs && s.pcs[t].Dialed? && !pc.Dialed?
    ensures var s' := Close(s, Some(s.pcs[t].client));
            OwnerInv(s.entries, s.pcs[t := pc], s'.closed, s.dialedWith, s'.owner)
  {
  }

  // ----- Every step keeps all of it -----

  lemma EnterKeeps(s: State, t: Thread, host: Host, want: Params, id: EntryId)
    requires Inv(s) && Enabled(s, Enter(t, host, want, id))
    ensures Inv(Next(s, Enter(t, host, want, id)))
  {
    var w := WithEntry(s, host, id);
    if host !in s.pool {
      PoolAdd(s.pool, s.entries, host, id);
      GateSet(s.entries, s.gates, s.pcs, id, NEW_ENTRY);
      OwnerAdd(s, id);
    }
    assert Inv(w);
    var pc := Checking(w.pool[host], want);
    GateMove(w.entries, w.gates, w.pcs, t, pc);
    OwnerMove(w, t, pc);
    UseMove(w.pcs, w.dialedWith, t, pc);
  }

  /** The entry may have been retired since it was looked up. */
  lemma CheckKeeps(s: State, t: Thread, expired: bool)
    requires Inv(s) && Enabled(s, Check(t, expired))
    ensures Inv(Next(s, Check(t, expired)))
  {
    var e, want := At(s, t).entry, At(s, t).want;
    var pc := if Current(s.entries[e], want, expired) then Using(e, want, s.entries[e].client.value)
      else Waiting(e, want);
    GateMove(s.entries, s.gates, s.pcs, t, pc);
    OwnerMove(s, t, pc);
    assert pc.Using? ==> HeldBy(pc.client, ByEntry(e), want, s.dialedWith, s.owner);
    UseMove(s.pcs, s.dialedWith, t, pc);
  }

  lemma UseMove(pcs: map<Thread, Pc>, dialedWith: map<Client, Params>, t: Thread, pc: Pc)
    requires UseInv(pcs, dialedWith)
    requires pc.Using? ==> pc.client in dialedWith && dialedWith[pc.client] == pc.want
    ensures UseInv(pcs[t := pc], dialedWith)
  {
  }

  lemma RestKeeps(s: State, t: Thread)
    requires Inv(s) && (At(s, t).Waiting? || At(s, t).Using?)
    ensures Inv(Move(s, t, Idle))
  {
    GateMove(s.entries, s.gates, s.pcs, t, Idle);
    OwnerMove(s, t, Idle);
    UseMove(s.pcs, s.dialedWith, t, Idle);
  }

  lemma AcquireKeeps(s: State, t: Thread)
    requires Inv(s) && Enabled(s, Acquire(t))
    ensures Inv(Next(s, Acquire(t)))
  {
    var pc := At(s, t);
    GateAcquire(s.entries, s.gates, s.pcs, t, pc.want);
    OwnerMove(s, t, Holding(pc.entry, pc.want));
    UseMove(s.pcs, s.dialedWith, t, Holding(pc.entry, pc.want));
  }

  lemma RecheckKeeps(s: State, t: Thread, expired: bool)
    requires Inv(s) && Enabled(s, Recheck(t, expired))
    ensures Inv(Next(s, Recheck(t, expired)))
  {
    var pc := At(s, t);
    var e := s.entries[pc.entry];
    var to := if Current(e, pc.want, expired) then Using(pc.entry, pc.want, e.client.value)
      else Taking(pc.entry, pc.want);
    assert to.Using? ==> HeldBy(to.client, ByEntry(pc.entry), pc.want, s.dialedWith, s.owner);
    UseMove(s.pcs, s.dialedWith, t, to);
    OwnerMove(s, t, to);
    if to.Using? {
      GateRelease(s.entries, s.gates, s.pcs, t, to);
    } else {
      GateAdvance(s.entries, s.gates, s.pcs, t, to);
    }
  }

  lemma TakeKeeps(s: State, t: Thread)
    requires Inv(s) && Enabled(s, Take(t))
    ensures Inv(Next(s, Take(t)))
  {
    var pc := At(s, t);
    var e := s.entries[pc.entry];
    PoolSet(s.pool, s.entries, pc.entry, Detached(e));
    GateSet(s.entries, s.gates, s.pcs, pc.entry, Detached(e));
    OwnerDetach(s, pc.entry, Detached(e));
    var taken := Close(SetEntry(s, pc.entry, Detached(e)), e.client);
    assert Inv(taken);
    var to := if e.retired then Idle else Dialing(pc.entry, pc.want);
    OwnerMove(taken, t, to);
    UseMove(s.pcs, s.dialedWith, t, to);
    if e.retired {
      GateRelease(taken.entries, taken.gates, taken.pcs, t, to);
    } else {
      GateAdvance(taken.entries, taken.gates, taken.pcs, t, to);
    }
  }

  lemma DialFailsKeeps(s: State, t: Thread)
    requires Inv(s) && Enabled(s, DialFails(t))
    ensures Inv(Next(s, DialFails(t)))
  {
    GateRelease(s.entries, s.gates, s.pcs, t, Idle);
    OwnerMove(s, t, Idle);
    UseMove(s.pcs, s.dialedWith, t, Idle);
  }

  lemma DialSucceedsKeeps(s: State, t: Thread, client: Client)
    requires Inv(s) && Enabled(s, DialSucceeds(t, client))
    ensures Inv(Next(s, DialSucceeds(t, client)))
  {
    var pc := At(s, t);
    var to := Dialed(pc.entry, pc.want, client);
    GateAdvance(s.entries, s.gates, s.pcs, t, to);
    OwnerDial(s, t, to);
    assert UseInv(s.pcs, s.dialedWith[client := pc.want]);
    UseMove(s.pcs, s.dialedWith[client := pc.want], t, to);
  }

  lemma StoreKeeps(s: State, t: Thread)
    requires Inv(s) && Enabled(s, Store(t))
    ensures Inv(Next(s, Store(t)))
  {
    var pc := At(s, t);
    var e := s.entries[pc.entry];
    var to := if e.retired then Idle else Using(pc.entry, pc.want, pc.client);
    assert HeldBy(pc.client, ByThread(t), pc.want, s.dialedWith, s.owner);
    UseMove(s.pcs, s.dialedWith, t, to);
    GateRelease(s.entries, s.gates, s.pcs, t, to);
    if e.retired {
      assert s.entries[pc.entry := e] == s.entries;
      OwnerDiscard(s, t, to);
    } else {
      var kept := Stored(e, pc.client, pc.want);
      GateSet(s.entries, s.gates - {pc.entry}, s.pcs[t := to], pc.entry, kept);
      PoolSet(s.pool, s.entries, pc.entry, kept);
      OwnerKeep(s, t, pc.entry, kept, to);
    }
  }

  lemma InvalidateKeeps(s: State, e: EntryId, dead: Client)
    requires Inv(s) && Enabled(s, Invalidate(e, dead))
    ensures Inv(Next(s, Invalidate(e, dead)))
  {
    var entry := s.entries[e];
    if entry.client == Some(dead) {
      PoolSet(s.pool, s.entries, e, Detached(entry));
      GateSet(s.entries, s.gates, s.pcs, e, Detached(entry));
      OwnerDetach(s, e, Detached(entry));
    } else {
      assert s.entries[e := entry] == s.entries;
    }
  }

  lemma RetireKeeps(s: State, host: Host)
    requires Inv(s) && Enabled(s, Retire(host))
    ensures Inv(Next(s, Retire(host)))
  {
    var e := s.pool[host];
    PoolRetire(s.pool, s.entries, host);
    GateSet(s.entries, s.gates, s.pcs, e, Retired(s.entries[e]));
    OwnerDetach(s, e, Retired(s.entries[e]));
  }

  lemma NextKeeps(s: State, step: Step)
    requires Inv(s) && Enabled(s, step)
    ensures Inv(Next(s, step))
  {
    hide Inv;
    match step
    case Enter(t, host, want, id) => EnterKeeps(s, t, host, want, id);
    case Check(t, expired) => CheckKeeps(s, t, expired);
    case GiveUp(t) => RestKeeps(s, t);
    case Acquire(t) => AcquireKeeps(s, t);
    case Recheck(t, expired) => RecheckKeeps(s, t, expired);
    case Take(t) => TakeKeeps(s, t);
    case DialFails(t) => DialFailsKeeps(s, t);
    case DialSucceeds(t, client) => DialSucceedsKeeps(s, t, client);
    case Store(t) => StoreKeeps(s, t);
    case Finish(t) => RestKeeps(s, t);
    case Invalidate(e, dead) => InvalidateKeeps(s, e, dead);
    case Retire(host) => RetireKeeps(s, host);
  }

  // ----- Every run -----

  predicate IsRun(s: State, steps: seq<Step>)
    decreases |steps|
  {
    steps == [] || (Enabled(s, steps[0]) && IsRun(Next(s, steps[0]), steps[1..]))
  }

  function After(s: State, steps: seq<Step>): State
    requires IsRun(s, steps)
    decreases |steps|
  {
    if steps == [] then s else After(Next(s, steps[0]), steps[1..])
  }

  lemma {:induction false} RunKeeps(s: State, steps: seq<Step>)
    requires Inv(s) && IsRun(s, steps)
    ensures Inv(After(s, steps))
    decreases |steps|
  {
    hide Inv, Next, Enabled;
    if steps == [] {
    } else {
      NextKeeps(s, steps[0]);
      RunKeeps(Next(s, steps[0]), steps[1..]);
    }
  }

  function EntriesHolding(s: State, c: Client): set<EntryId>
  {
    set e | e in s.entries && s.entries[e].client == Some(c)
  }

  function CallersHolding(s: State, c: Client): set<Thread>
  {
    set t | t in s.pcs && s.pcs[t].Dialed? && s.pcs[t].client == c
  }

  lemma OwnedOnce(s: State, c: Client)
    requires Inv(s) && c in s.dialedWith
    ensures |EntriesHolding(s, c)| + |CallersHolding(s, c)| + s.closed[c] == 1
    ensures s.closed[c] == 0 && CallersHolding(s, c) == {} ==>
            exists h :: h in s.pool && s.pool[h] in s.entries && s.entries[s.pool[h]].client == Some(c)
  {
    assert c in s.owner;
    match s.owner[c]
    case ByEntry(e) =>
      assert EntriesHolding(s, c) == {e};
      assert CallersHolding(s, c) == {};
      assert Pooled(s.pool, e);
    case ByThread(t) =>
      assert CallersHolding(s, c) == {t};
      assert EntriesHolding(s, c) == {};
    case Closed =>
      assert EntriesHolding(s, c) == {} && CallersHolding(s, c) == {};
  }

  /** Over every interleaving: each client ever dialed is held by one entry, or by the one
      caller that just dialed it, or was handed to close exactly once; one that is open
      and in no caller's hands is in the pool, so none leaks; a retired entry holds none;
      no entry has two dials in flight; and nobody uses a client dialed with other
      parameters than it asked for. */
  lemma PoolOwnership(steps: seq<Step>)
    requires IsRun(START, steps)
    ensures var s := After(START, steps);
            && (forall c :: c in s.dialedWith ==> |EntriesHolding(s, c)| + |CallersHolding(s, c)| + s.closed[c] == 1)
            && (forall c :: c in s.dialedWith && s.closed[c] == 0 && CallersHolding(s, c) == {} ==>
                  exists h :: h in s.pool && s.pool[h] in s.entries && s.entries[s.pool[h]].client == Some(c))
            && (forall e :: e in s.entries && s.entries[e].retired ==> s.entries[e].client.None?)
            && (forall t, u :: t in s.pcs && u in s.pcs && Connecting(s.pcs[t]) && Connecting(s.pcs[u]) ==>
                  (s.pcs[t].entry == s.pcs[u].entry ==> t == u))
            && (forall t :: t in s.pcs && s.pcs[t].Using? ==>
                  s.pcs[t].client in s.dialedWith && s.dialedWith[s.pcs[t].client] == s.pcs[t].want)
  {
    assert Inv(START);
    RunKeeps(START, steps);
    var s := After(START, steps);
    forall c | c in s.dialedWith ensures |EntriesHolding(s, c)| + |CallersHolding(s, c)| + s.closed[c] == 1 {
      OwnedOnce(s, c);
    }
    forall c | c in s.dialedWith && s.closed[c] == 0 && CallersHolding(s, c) == {}
      ensures exists h :: h in s.pool && s.pool[h] in s.entries && s.entries[s.pool[h]].client == Some(c)
    {
      OwnedOnce(s, c);
    }
    forall t, u | t in s.pcs && u in s.pcs && Connecting(s.pcs[t]) && Connecting(s.pcs[u])
      && s.pcs[t].entry == s.pcs[u].entry
      ensures t == u
    {
      assert HasGate(s.pcs[t]) && HasGate(s.pcs[u]);
    }
  }

  /** A caller that arrives, or gets the gate, uses what the entry holds exactly when it was
      dialed with the parameters the caller wants and is not too old. */
  lemma ReusedIff(s: State, t: Thread, expired: bool)
    requires Inv(s) && (Enabled(s, Check(t, expired)) || Enabled(s, Recheck(t, expired)))
    ensures var e, want := At(s, t).entry, At(s, t).want;
            var s' := Next(s, if At(s, t).Checking? then Check(t, expired) else Recheck(t, expired));
            At(s', t).Using? <==>
            exists c :: c in s.dialedWith && s.entries[e].client == Some(c) && s.dialedWith[c] == want && !expired
  {
    var e := At(s, t).entry;
    if s.entries[e].client.Some? {
      assert HeldBy(s.entries[e].client.value, ByEntry(e), s.entries[e].params, s.dialedWith, s.owner);
    }
  }

  /** A caller may always come in, and shares the entry of whoever came first. */
  lemma AnyoneMayEnter(s: State, t: Thread, host: Host, want: Params, id: EntryId)
    requires Inv(s) && At(s, t).Idle? && id !in s.entries
    ensures Enabled(s, Enter(t, host, want, id))
    ensures At(Next(s, Enter(t, host, want, id)), t) == Checking(if host in s.pool then s.pool[host] else id, want)
  {
  }

  lemma {:induction false} RunAppend(s: State, steps: seq<Step>, step: Step)
    requires IsRun(s, steps) && Enabled(After(s, steps), step)
    ensures IsRun(s, steps + [step]) && After(s, steps + [step]) == Next(After(s, steps), step)
    decreases |steps|
  {
    hide Next, Enabled;
    var all := steps + [step];
    if steps == [] {
      assert all == [step] && all[1..] == [];
    } else {
      RunAppend(Next(s, steps[0]), steps[1..], step);
      assert all[1..] == steps[1..] + [step];
    }
  }

  /** The first caller for a host waits for nobody, dials, and uses what it dialed, which is
      left in the pool. */
  lemma FirstCallerDials(t: Thread, host: Host, want: Params, id: EntryId, c: Client) returns (steps: seq<Step>)
    ensures IsRun(START, steps)
    ensures var s := After(START, steps);
            && s.pool == map[host := id] && s.entries == map[id := Entry(Some(c), want, false)] && s.gates == map[]
            && At(s, t) == Using(id, want, c) && s.closed == multiset{}
  {
    steps := StartsDial(t, host, want, id);
    hide IsRun, After;
    RunAppend(START, steps, DialSucceeds(t, c));
    steps := steps + [DialSucceeds(t, c)];
    RunAppend(START, steps, Store(t));
    steps := steps + [Store(t)];
  }

  lemma StartsDial(t: Thread, host: Host, want: Params, id: EntryId) returns (steps: seq<Step>)
    ensures IsRun(START, steps)
    ensures After(START, steps) ==
            State(map[host := id], map[id := NEW_ENTRY], map[id := t], map[t := Dialing(id, want)], multiset{}, map[],
                  map[])
  {
    steps := GetsGate(t, host, want, id);
    hide IsRun, After;
    RunAppend(START, steps, Recheck(t, false));
    steps := steps + [Recheck(t, false)];
    RunAppend(START, steps, Take(t));
    steps := steps + [Take(t)];
  }

  lemma GetsGate(t: Thread, host: Host, want: Params, id: EntryId) returns (steps: seq<Step>)
    ensures IsRun(START, steps)
    ensures After(START, steps) ==
            State(map[host := id], map[id := NEW_ENTRY], map[id := t], map[t := Holding(id, want)], multiset{}, map[],
                  map[])
  {
    steps := [];
    assert IsRun(START, steps) && After(START, steps) == START;
    hide IsRun, After;
    RunAppend(START, steps, Enter(t, host, want, id));
    steps := steps + [Enter(t, host, want, id)];
    RunAppend(START, steps, Check(t, false));
    steps := steps + [Check(t, false)];
    RunAppend(START, steps, Acquire(t));
    steps := steps + [Acquire(t)];
  }

  lemma ThreeSteps(s: State, a: Step, b: Step, c: Step)
    requires Enabled(s, a) && Enabled(Next(s, a), b) && Enabled(Next(Next(s, a), b), c)
    ensures IsRun(s, [a, b, c]) && After(s, [a, b, c]) == Next(Next(Next(s, a), b), c)
  {
    hide Next, Enabled;
    var s1, s2 := Next(s, a), Next(Next(s, a), b);
    assert [a, b, c][1..] == [b, c] && [b, c][1..] == [c] && [c][1..] == [];
    assert IsRun(Next(s2, c), []) && After(Next(s2, c), []) == Next(s2, c);
    assert IsRun(s2, [c]) && After(s2, [c]) == Next(s2, c);
    assert IsRun(s1, [b, c]) && After(s1, [b, c]) == Next(s2, c);
  }

  /** Callers that want the same share one dial: whoever waited for the gate while another
      dialed, and gets it next, uses what the other stored. */
  lemma DialIsShared(s: State, t: Thread, u: Thread)
    requires Enabled(s, Store(t)) && !s.entries[At(s, t).entry].retired
    requires u != t && At(s, u) == Waiting(At(s, t).entry, At(s, t).want)
    ensures var pc := At(s, t);
            var steps := [Store(t), Acquire(u), Recheck(u, false)];
            && IsRun(s, steps)
            && var s' := After(s, steps);
               && At(s', t) == Using(pc.entry, pc.want, pc.client) && At(s', u) == At(s', t)
               && s'.closed == s.closed && s'.dialedWith == s.dialedWith
  {
    hide IsRun, After;
    var s1 := Next(s, Store(t));
    assert At(s1, u) == At(s, u) && At(s1, u).entry !in s1.gates;
    var s2 := Next(s1, Acquire(u));
    assert At(s2, u) == Holding(At(s, t).entry, At(s, t).want) && s2.entries == s1.entries;
    ThreeSteps(s, Store(t), Acquire(u), Recheck(u, false));
  }

  /** Invalidating a dead client never closes a replacement: whatever else the entry holds
      by then stays where it is. */
  lemma InvalidateSparesReplacement(s: State, e: EntryId, dead: Client)
    requires Inv(s) && Enabled(s, Invalidate(e, dead))
    ensures var s' := Next(s, Invalidate(e, dead));
            && (s.entries[e].client != Some(dead) ==> s' == s)
            && (forall c :: c != dead ==> s'.closed[c] == s.closed[c] && EntriesHolding(s', c) == EntriesHolding(s, c))
  {
    var s' := Next(s, Invalidate(e, dead));
    if s.entries[e].client != Some(dead) {
      assert s.entries[e := s.entries[e]] == s.entries;
    }
  }
}
