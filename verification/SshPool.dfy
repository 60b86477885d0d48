/** The SSH connection pool: one entry per host, a gate that lets one caller dial at a
    time, and a retirement mark for entries whose host was reconfigured. Each step below
    is one lock region; any caller may take the next one. */
module SshPool {
  import opened Options

  type Client = nat
  type EntryId = nat
  type Thread = nat
  type Host = string
  type Params = string

  /** A pool entry's guarded fields. */
  datatype Entry = Entry(client: Option<Client>, params: Params, retired: bool)

  const NEW_ENTRY := Entry(None, "", false)

  // ----- The lock regions of one entry -----

  /** The live client, if it was dialed with these parameters and is not too old. */
  predicate Current(e: Entry, want: Params, expired: bool)
  {
    e.client.Some? && e.params == want && !expired
  }

  /** Detaches the client and yields it. */
  function Detached(e: Entry): Entry
  {
    e.(client := None)
  }

  function Stored(e: Entry, cl: Client, want: Params): Entry
  {
    if e.retired then e else e.(client := Some(cl), params := want)
  }

  function Invalidated(e: Entry, dead: Client): Entry
  {
    if e.client == Some(dead) then Detached(e) else e
  }

  function Retired(e: Entry): Entry
  {
    Detached(e).(retired := true)
  }

  // ----- All callers together -----

  /** Where a caller is. From `Holding` to `Dialed` it has the entry's gate. */
  datatype Pc =
    | Idle
    | Checking(entry: EntryId, want: Params)
    | Waiting(entry: EntryId, want: Params)
    | Holding(entry: EntryId, want: Params)
    | Taking(entry: EntryId, want: Params)
    | Dialing(entry: EntryId, want: Params)
    | Dialed(entry: EntryId, want: Params, client: Client)
    | Using(entry: EntryId, want: Params, client: Client)

  /** Who is answerable for a client's connection. */
  datatype Owner = ByEntry(entry: EntryId) | ByThread(thread: Thread) | Closed

  /** `dialedWith` and `owner` are history: every client ever dialed. `closed` counts how
      often each was handed to close. */
  datatype State = State(
    pool: map<Host, EntryId>,
    entries: map<EntryId, Entry>,
    gates: map<EntryId, Thread>,
    pcs: map<Thread, Pc>,
    closed: multiset<Client>,
    dialedWith: map<Client, Params>,
    owner: map<Client, Owner>)

  const START := State(map[], map[], map[], map[], multiset{}, map[], map[])

  function At(s: State, t: Thread): Pc
  {
    if t in s.pcs then s.pcs[t] else Idle
  }

  function Move(s: State, t: Thread, pc: Pc): State
  {
    s.(pcs := s.pcs[t := pc])
  }

  function Release(s: State, e: EntryId): State
  {
    s.(gates := s.gates - {e})
  }

  /** Hands a detached client to close. */
  function Close(s: State, cl: Option<Client>): State
  {
    if cl.None? then s
    else s.(closed := s.closed + multiset{cl.value}, owner := s.owner[cl.value := Closed])
  }

  function SetEntry(s: State, e: EntryId, entry: Entry): State
  {
    s.(entries := s.entries[e := entry])
  }

  datatype Step =
    | Enter(t: Thread, host: Host, want: Params, id: EntryId)
    | Check(t: Thread, expired: bool)
    | GiveUp(t: Thread)
    | Acquire(t: Thread)
    | Recheck(t: Thread, expired: bool)
    | Take(t: Thread)
    | DialFails(t: Thread)
    | DialSucceeds(t: Thread, client: Client)
    | Store(t: Thread)
    | Finish(t: Thread)
    | Invalidate(e: EntryId, dead: Client)
    | Retire(host: Host)

  predicate Enabled(s: State, step: Step)
  {
    match step
    case Enter(t, host, _, id) =>
      At(s, t).Idle? && if host in s.pool then s.pool[host] in s.entries else id !in s.entries
    case Check(t, _) => At(s, t).Checking? && At(s, t).entry in s.entries
    case GiveUp(t) => At(s, t).Waiting?
    case Acquire(t) => At(s, t).Waiting? && At(s, t).entry !in s.gates
    case Recheck(t, _) => At(s, t).Holding? && At(s, t).entry in s.entries
    case Take(t) => At(s, t).Taking? && At(s, t).entry in s.entries
    case DialFails(t) => At(s, t).Dialing?
    case DialSucceeds(t, cl) => At(s, t).Dialing? && cl !in s.dialedWith
    case Store(t) => At(s, t).Dialed? && At(s, t).entry in s.entries
    case Finish(t) => At(s, t).Using?
    case Invalidate(e, _) => e in s.entries
    case Retire(host) => host in s.pool && s.pool[host] in s.entries
  }

  /** An entry for the host, made on first use. */
  function WithEntry(s: State, host: Host, id: EntryId): State
  {
    if host in s.pool then s
    else s.(pool := s.pool[host := id], entries := s.entries[id := NEW_ENTRY])
  }

  function Arrive(s: State, t: Thread, e: EntryId, want: Params, expired: bool): State
    requires e in s.entries
  {
    if Current(s.entries[e], want, expired) then Move(s, t, Using(e, want, s.entries[e].client.value))
    else Move(s, t, Waiting(e, want))
  }

  function Next(s: State, step: Step): State
    requires Enabled(s, step)
  {
    match step
    case Enter(t, host, want, id) =>
      var w := WithEntry(s, host, id);
      Move(w, t, Checking(w.pool[host], want))
    case Check(t, expired) => Arrive(s, t, At(s, t).entry, At(s, t).want, expired)
    case GiveUp(t) => Move(s, t, Idle)
    case Acquire(t) =>
      var pc := At(s, t);
      Move(s, t, Holding(pc.entry, pc.want)).(gates := s.gates[pc.entry := t])
    case Recheck(t, expired) =>
      var pc := At(s, t);
      var e := s.entries[pc.entry];
      if Current(e, pc.want, expired) then Release(Move(s, t, Using(pc.entry, pc.want, e.client.value)), pc.entry)
      else Move(s, t, Taking(pc.entry, pc.want))
    case Take(t) =>
      var pc := At(s, t);
      var e := s.entries[pc.entry];
      var taken := Close(SetEntry(s, pc.entry, Detached(e)), e.client);
      if e.retired then Release(Move(taken, t, Idle), pc.entry) else Move(taken, t, Dialing(pc.entry, pc.want))
    case DialFails(t) => Release(Move(s, t, Idle), At(s, t).entry)
    case DialSucceeds(t, cl) =>
      var pc := At(s, t);
      Move(s, t, Dialed(pc.entry, pc.want, cl)).(dialedWith := s.dialedWith[cl := pc.want],
                                                 owner := s.owner[cl := ByThread(t)])
    case Store(t) =>
      var pc := At(s, t);
      var e := s.entries[pc.entry];
      var stored := SetEntry(s, pc.entry, Stored(e, pc.client, pc.want));
      if e.retired then Release(Move(Close(stored, Some(pc.client)), t, Idle), pc.entry)
      else
        Release(Move(stored, t, Using(pc.entry, pc.want, pc.client)), pc.entry).
          (owner := s.owner[pc.client := ByEntry(pc.entry)])
    case Finish(t) => Move(s, t, Idle)
    case Invalidate(e, dead) =>
      var entry := s.entries[e];
      Close(SetEntry(s, e, Invalidated(entry, dead)), if entry.client == Some(dead) then Some(dead) else None)
    case Retire(host) =>
      var e := s.pool[host];
      Close(SetEntry(s, e, Retired(s.entries[e])), s.entries[e].client).(pool := s.pool - {host})
  }
}
