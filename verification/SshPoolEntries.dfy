/** The pool's entry objects. Each method is one critical section of an entry and one step
    of the system of all callers, so that what it returns can be told by that system. */
module SshPoolEntries {
  import opened Options
  import opened SshPool
  import opened SshPoolSafety

  /** The callers, the other entries, and what became of every client. */
  class World {
    ghost var s: State

    constructor ()
      ensures s == START && Inv(s)
    {
      s := START;
    }

    ghost method Advance(step: Step)
      requires Inv(s) && Enabled(s, step)
      modifies this
      ensures s == Next(old(s), step) && Inv(s)
    {
      NextKeeps(s, step);
      s := Next(s, step);
    }
  }

  /** A client held by an entry, or by the caller that just dialed it, is open. */
  lemma HeldIsOpen(s: State, c: Client)
    requires Inv(s)
    requires (exists e :: e in s.entries && s.entries[e].client == Some(c))
             || (exists t :: t in s.pcs && s.pcs[t].Dialed? && s.pcs[t].client == c)
    ensures c in s.dialedWith && s.closed[c] == 0
  {
  }

  lemma EntryClient(s: State, e: EntryId, c: Client)
    requires Inv(s) && e in s.entries && s.entries[e].client == Some(c)
    ensures c in s.dialedWith && s.dialedWith[c] == s.entries[e].params && s.closed[c] == 0
  {
    HeldIsOpen(s, c);
  }

  lemma CallerClient(s: State, t: Thread)
    requires Inv(s) && At(s, t).Dialed?
    ensures At(s, t).entry in s.entries && s.entries[At(s, t).entry].client.None? && s.closed[At(s, t).client] == 0
  {
    HeldIsOpen(s, At(s, t).client);
  }

  lemma UnretiredIsPooled(s: State, e: EntryId)
    requires Inv(s) && e in s.entries
    ensures s.entries[e].retired <==> !Pooled(s.pool, e)
    ensures s.entries[e].retired ==> s.entries[e].client.None?
  {
  }

  lemma StoreResult(s: State, t: Thread)
    requires Inv(s) && Enabled(s, Step.Store(t))
    ensures var pc, s' := At(s, t), Next(s, Step.Store(t));
            var kept := !s.entries[pc.entry].retired;
            && s'.entries == s.entries[pc.entry := Stored(s.entries[pc.entry], pc.client, pc.want)]
            && s'.pool == s.pool
            && s.closed[pc.client] == 0 && s'.closed[pc.client] == (if kept then 0 else 1)
            && At(s', t) == if kept then Using(pc.entry, pc.want, pc.client) else Idle
  {
    CallerClient(s, t);
    hide Inv;
  }

  class PoolEntry {
    const id: EntryId
    const world: World
    var client: Option<Client>
    var params: Params
    var retired: bool

    ghost predicate Valid()
      reads this, world
    {
      id in world.s.entries && world.s.entries[id] == Entry(client, params, retired) && Inv(world.s)
    }

    /** The object of an entry that has just been put in the pool. */
    constructor (id: EntryId, world: World)
      requires id in world.s.entries && world.s.entries[id] == NEW_ENTRY && Inv(world.s)
      ensures Valid() && this.id == id && this.world == world
    {
      this.id, this.world := id, world;
      client, params, retired := None, "", false;
    }

    /** Other entries' objects are as valid as before. */
    twostate predicate OthersKept()
      reads world
    {
      forall e :: e in old(world.s.entries) && e != id ==>
        e in world.s.entries && world.s.entries[e] == old(world.s.entries[e])
    }

    /** The first check, and the one under the gate; the entry may have been retired since it
        was looked up. What a caller is given is open, was dialed with the parameters it
        asked for, and is what it uses from now on. */
    method CurrentClient(want: Params, expired: bool, ghost t: Thread, ghost step: Step) returns (cl: Option<Client>)
      requires Valid() && Enabled(world.s, step)
      requires || (step == Check(t, expired) && At(world.s, t) == Checking(id, want))
               || (step == Recheck(t, expired) && At(world.s, t) == Holding(id, want))
      modifies world
      ensures Valid() && OthersKept() && world.s == Next(old(world.s), step)
      ensures cl == if params == want && !expired then client else None
      ensures cl.Some? <==> At(world.s, t).Using?
      ensures cl.Some? ==> At(world.s, t).client == cl.value && world.s.closed[cl.value] == 0
      ensures cl.Some? ==> cl.value in world.s.dialedWith && world.s.dialedWith[cl.value] == want
    {
      hide Inv;
      world.Advance(step);
      if client.Some? && params == want && !expired {
        EntryClient(world.s, id, client.value);
        return client;
      }
      return None;
    }

    /** Takes the stale client out before a redial: this caller closes it, and nobody has
        or will. It goes on to dial exactly if the host is still in the pool, and until it
        is done the entry has no client to lose. */
    method TakeStale(ghost t: Thread, want: Params) returns (stale: Option<Client>, wasRetired: bool)
      requires Valid() && At(world.s, t) == Taking(id, want) && Enabled(world.s, Take(t))
      modifies this, world
      ensures Valid() && OthersKept() && world.s == Next(old(world.s), Take(t))
      ensures stale == old(client)
      ensures stale.Some? ==> old(world.s.closed)[stale.value] == 0 && world.s.closed[stale.value] == 1
      ensures stale.None? ==> world.s.closed == old(world.s.closed)
      ensures wasRetired <==> !Pooled(world.s.pool, id)
      ensures At(world.s, t) == if wasRetired then Idle else Dialing(id, want)
      ensures client.None?
    {
      hide Inv;
      if client.Some? {
        EntryClient(world.s, id, client.value);
      }
      UnretiredIsPooled(world.s, id);
      world.Advance(Take(t));
      stale, wasRetired := client, retired;
      client := None;
    }

    /** A freshly dialed client is kept exactly while the host is in the pool, and then the
        caller uses it; otherwise the caller closes it, and nobody else has or will. */
    method Store(cl: Client, want: Params, ghost t: Thread) returns (kept: bool)
      requires Valid() && At(world.s, t) == Dialed(id, want, cl) && Enabled(world.s, Step.Store(t))
      modifies this, world
      ensures Valid() && OthersKept() && world.s == Next(old(world.s), Step.Store(t))
      ensures kept <==> Pooled(world.s.pool, id)
      ensures old(world.s.closed)[cl] == 0 && world.s.closed[cl] == if kept then 0 else 1
      ensures At(world.s, t) == if kept then Using(id, want, cl) else Idle
      ensures kept ==> client == Some(cl)
    {
      hide Inv, Next;
      StoreResult(world.s, t);
      UnretiredIsPooled(world.s, id);
      world.Advance(Step.Store(t));
      if retired {
        return false;
      }
      client, params := Some(cl), want;
      return true;
    }

    /** Drops the client if it is still the one the caller was using; a replacement is
        never closed in its stead. */
    method Invalidate(dead: Client) returns (closes: bool)
      requires Valid() && Enabled(world.s, Step.Invalidate(id, dead))
      modifies this, world
      ensures Valid() && OthersKept() && world.s == Next(old(world.s), Step.Invalidate(id, dead))
      ensures closes <==> old(client) == Some(dead)
      ensures client == if closes then None else old(client)
      ensures closes ==> old(world.s.closed)[dead] == 0 && world.s.closed[dead] == 1
      ensures !closes ==> world.s == old(world.s)
      ensures forall c :: c != dead ==> world.s.closed[c] == old(world.s.closed)[c]
    {
      hide Inv;
      if client == Some(dead) {
        EntryClient(world.s, id, dead);
      }
      InvalidateSparesReplacement(world.s, id, dead);
      world.Advance(Step.Invalidate(id, dead));
      closes := client == Some(dead);
      if closes {
        client := None;
      }
    }

    /** The entry leaves the pool for good and hands its client back, to be closed once; a
        dial still in flight will not be kept. */
    method Retire(ghost host: Host) returns (cl: Option<Client>)
      requires Valid() && host in world.s.pool && world.s.pool[host] == id && Enabled(world.s, Step.Retire(host))
      modifies this, world
      ensures Valid() && OthersKept() && world.s == Next(old(world.s), Step.Retire(host))
      ensures cl == old(client) && (cl.None? ==> world.s.closed == old(world.s.closed))
      ensures cl.Some? ==> old(world.s.closed)[cl.value] == 0 && world.s.closed[cl.value] == 1
      ensures !Pooled(world.s.pool, id) && client.None?
    {
      hide Inv;
      if client.Some? {
        EntryClient(world.s, id, client.value);
      }
      world.Advance(Step.Retire(host));
      UnretiredIsPooled(world.s, id);
      retired := true;
      cl := client;
      client := None;
    }
  }
}
