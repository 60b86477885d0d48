/** Which volumes a backup captures: what the template declares now, what the instance
    was applied with (perhaps under names since changed), what exists on the host, and
    which of those an operator vetoed. */
module BackupScope {
  import opened Sorting

  /** A volume's backup marker and exclude patterns. */
  datatype VolMeta = VolMeta(marker: string, exclude: seq<string>)

  /** What a lookup of an unknown volume yields. */
  const NO_META := VolMeta("", [])

  /** A declared volume; `live` when it says how to back it up without stopping the pod. */
  datatype Declared = Declared(name: string, meta: VolMeta, live: bool)

  /** The volumes the last apply recorded; rows older than that record have none. */
  datatype Applied = Unknown | Known(names: seq<string>)

  /** An instance: its volume-name prefix, what its template declares now, and what its
      stored row says it was applied with. */
  datatype Instance = Instance(prefix: string, volumes: seq<Declared>, applied: Applied,
                               appliedMeta: map<string, VolMeta>)

  /** A host's volumes, and the ones whose inspection fails for some other reason. */
  datatype Host = Host(present: set<string>, failing: set<string>)

  datatype BackupRow = BackupRow(complete: bool, volumes: seq<string>)

  // ----- The veto marker: "none" up to case and surrounding space -----

  /** Unicode white space. */
  predicate IsSpace(c: char)
  {
    || c == ' ' || '\t' <= c <= '\r' || c == '\U{0085}' || c == '\U{00A0}' || c == '\U{1680}'
    || '\U{2000}' <= c <= '\U{200A}' || c == '\U{2028}' || c == '\U{2029}' || c == '\U{202F}' || c == '\U{205F}'
    || c == '\U{3000}'
  }

  function TrimLeft(s: string): string
  {
    if s != [] && IsSpace(s[0]) then TrimLeft(s[1..]) else s
  }

  function TrimRight(s: string): string
  {
    if s != [] && IsSpace(s[|s| - 1]) then TrimRight(s[..|s| - 1]) else s
  }

  function Lower(c: char): char
  {
    if 'A' <= c <= 'Z' then c - 'A' + 'a' else c
  }

  predicate IsNone(marker: string)
  {
    var m := TrimLeft(TrimRight(marker));
    |m| == 4 && Lower(m[0]) == 'n' && Lower(m[1]) == 'o' && Lower(m[2]) == 'n' && Lower(m[3]) == 'e'
  }

  const SPACES: string :=
    " \t\n\U{0B}\U{0C}\r\U{0085}\U{00A0}\U{1680}\U{2000}\U{2001}\U{2002}\U{2003}\U{2004}\U{2005}\U{2006}\U{2007}"
    + "\U{2008}\U{2009}\U{200A}\U{2028}\U{2029}\U{202F}\U{205F}\U{3000}"

  /** The word, in any case, with nothing but white space around it. */
  ghost predicate SaysNone(marker: string)
  {
    exists l, w, r :: SpelledAs(marker, l, w, r)
  }

  predicate SpelledAs(marker: string, l: string, w: string, r: string)
  {
    && marker == l + w + r && (forall c :: c in l ==> IsSpace(c)) && (forall c :: c in r ==> IsSpace(c))
    && |w| == 4 && w[0] in "nN" && w[1] in "oO" && w[2] in "nN" && w[3] in "eE"
  }

  lemma {:induction false} TrimLeftIff(s: string) returns (l: string)
    ensures s == l + TrimLeft(s) && (forall c :: c in l ==> IsSpace(c))
    ensures TrimLeft(s) == "" || !IsSpace(TrimLeft(s)[0])
  {
    hide IsSpace;
    if s == "" || !IsSpace(s[0]) {
      l := "";
    } else {
      l := TrimLeftIff(s[1..]);
      l := [s[0]] + l;
      assert s == [s[0]] + s[1..];
    }
  }

  lemma {:induction false} TrimRightIff(s: string) returns (r: string)
    ensures s == TrimRight(s) + r && (forall c :: c in r ==> IsSpace(c))
    ensures TrimRight(s) == "" || !IsSpace(TrimRight(s)[|TrimRight(s)| - 1])
  {
    hide IsSpace;
    var n := |s| - 1;
    if s == "" || !IsSpace(s[n]) {
      r := "";
    } else {
      r := TrimRightIff(s[..n]);
      r := r + [s[n]];
      assert s == s[..n] + [s[n]];
    }
  }

  lemma {:induction false} TrimsRight(s: string, r: string)
    requires (s == "" || !IsSpace(s[|s| - 1])) && forall c :: c in r ==> IsSpace(c)
    ensures TrimRight(s + r) == s
  {
    hide IsSpace;
    if r == "" {
      assert s + r == s;
    } else {
      var n := |r| - 1;
      TrimsRight(s, r[..n]);
      assert (s + r)[..|s + r| - 1] == s + r[..n] && (s + r)[|s + r| - 1] == r[n];
    }
  }

  lemma {:induction false} TrimsLeft(l: string, s: string)
    requires (s == "" || !IsSpace(s[0])) && forall c :: c in l ==> IsSpace(c)
    ensures TrimLeft(l + s) == s
  {
    hide IsSpace;
    if l == "" {
      assert l + s == s;
    } else {
      TrimsLeft(l[1..], s);
      assert (l + s)[1..] == l[1..] + s;
    }
  }

  lemma LetterIff(c: char)
    ensures Lower(c) == 'n' <==> c in "nN"
    ensures Lower(c) == 'o' <==> c in "oO"
    ensures Lower(c) == 'e' <==> c in "eE"
  {
  }

  lemma LettersAreNotSpace(w: string)
    requires |w| == 4 && w[0] in "nN" && w[3] in "eE"
    ensures !IsSpace(w[0]) && !IsSpace(w[3])
  {
  }

  /** A marker vetoes exactly when it says "none", in any case, white space aside. */
  lemma IsNoneIff(marker: string)
    ensures IsNone(marker) <==> SaysNone(marker)
  {
    hide IsSpace, TrimLeft, TrimRight, Lower;
    forall c ensures (Lower(c) == 'n' <==> c in "nN") && (Lower(c) == 'o' <==> c in "oO")
                     && (Lower(c) == 'e' <==> c in "eE")
    {
      LetterIff(c);
    }
    if IsNone(marker) {
      var r := TrimRightIff(marker);
      var l := TrimLeftIff(TrimRight(marker));
      assert SpelledAs(marker, l, TrimLeft(TrimRight(marker)), r);
    }
    if l, w, r :| SpelledAs(marker, l, w, r) {
      LettersAreNotSpace(w);
      assert (l + w)[|l + w| - 1] == w[3];
      TrimsRight(l + w, r);
      TrimsLeft(l, w);
    }
  }

  /** White space is exactly these characters. */
  lemma IsSpaceIff(c: char)
    ensures IsSpace(c) <==> c in SPACES
  {
  }

  // ----- What there is to capture -----

  function Full(i: Instance, short: string): string
  {
    i.prefix + short
  }

  lemma FullInjective(i: Instance, a: string, b: string)
    ensures Full(i, a) == Full(i, b) ==> a == b
  {
    assert Full(i, a)[|i.prefix|..] == a && Full(i, b)[|i.prefix|..] == b;
  }

  /** Full names of some volumes. */
  function Fulls(i: Instance, shorts: set<string>): set<string>
  {
    set s | s in shorts :: Full(i, s)
  }

  function DeclaredMeta(vs: seq<Declared>): map<string, VolMeta>
  {
    if vs == [] then map[] else DeclaredMeta(vs[..|vs| - 1])[vs[|vs| - 1].name := vs[|vs| - 1].meta]
  }

  function DeclaredNames(i: Instance): set<string>
  {
    DeclaredMeta(i.volumes).Keys
  }

  function AppliedNames(i: Instance): seq<string>
  {
    if i.applied.Known? then i.applied.names else []
  }

  /** Every volume the instance is known to have, declared now or when it was applied. */
  function KnownNames(i: Instance): set<string>
  {
    DeclaredNames(i) + set s | s in AppliedNames(i)
  }

  /** The ones that exist on the host. */
  function Holding(i: Instance, h: Host): set<string>
  {
    set s | s in KnownNames(i) && Full(i, s) in h.present
  }

  /** The current declaration decides; a volume no longer declared keeps the metadata it
      was applied with. */
  function EffectiveMeta(i: Instance, short: string): VolMeta
  {
    if short in DeclaredMeta(i.volumes) then DeclaredMeta(i.volumes)[short]
    else if short in i.appliedMeta then i.appliedMeta[short]
    else NO_META
  }

  predicate Vetoed(i: Instance, short: string)
  {
    IsNone(EffectiveMeta(i, short).marker)
  }

  lemma UnmarkedIsNotNone()
    ensures !IsNone("")
  {
  }

  /** What an unscoped backup is meant to record. */
  function Captured(i: Instance, h: Host): set<string>
  {
    set s | s in Holding(i, h) && !Vetoed(i, s)
  }

  ghost predicate Corroborated(i: Instance, history: seq<BackupRow>, short: string)
  {
    exists b :: b in history && b.complete && Full(i, short) in b.volumes
  }

  /** When an unscoped backup is admitted: something could be exported unless nothing is
      declared at all, a wholly lost applied set was never seen in a backup, data the
      template stopped declaring altogether is not walked past, and neither is data that
      is entirely vetoed. */
  ghost predicate UnscopedAllowed(i: Instance, h: Host, history: seq<BackupRow>)
  {
    && (DeclaredNames(i) == {} || exists s :: s in KnownNames(i) && !Vetoed(i, s))
    && (Holding(i, h) == {} ==> forall s :: s in AppliedNames(i) ==> !Corroborated(i, history, s))
    && (DeclaredNames(i) == {} ==> Holding(i, h) == {})
    && (Holding(i, h) != {} ==> Captured(i, h) != {})
  }

  /** When a scoped one is: each requested volume is declared, not vetoed, and exists. */
  predicate ScopedAllowed(i: Instance, h: Host, scope: seq<string>)
  {
    forall s :: s in scope ==> s in DeclaredNames(i) && !Vetoed(i, s) && Full(i, s) in h.present
  }

  /** Every volume some admission asks about can be inspected. */
  ghost predicate Reachable(i: Instance, h: Host)
  {
    forall s :: s in KnownNames(i) ==> Full(i, s) !in h.failing
  }

  ghost predicate DeclaredReachable(i: Instance, h: Host)
  {
    forall s :: s in DeclaredNames(i) ==> Full(i, s) !in h.failing
  }

  ghost predicate RenamedReachable(i: Instance, h: Host)
  {
    forall s :: s in AppliedNames(i) && s !in DeclaredNames(i) ==> Full(i, s) !in h.failing
  }

  lemma ReachableParts(i: Instance, h: Host)
    ensures Reachable(i, h) <==> DeclaredReachable(i, h) && RenamedReachable(i, h)
  {
  }

  // ----- Listing what exists -----

  predicate DistinctNames(vs: seq<Declared>)
  {
    forall a, b :: 0 <= a < b < |vs| ==> vs[a].name != vs[b].name
  }

  lemma {:induction false} DeclaredMetaKeys(vs: seq<Declared>)
    ensures forall s :: s in DeclaredMeta(vs) <==> exists j :: 0 <= j < |vs| && vs[j].name == s
  {
    if vs == [] {
    } else {
      var k := |vs| - 1;
      DeclaredMetaKeys(vs[..k]);
      forall s ensures s in DeclaredMeta(vs) <==> exists j :: 0 <= j < |vs| && vs[j].name == s {
        if s in DeclaredMeta(vs[..k]) {
          var j :| 0 <= j < k && vs[..k][j].name == s;
          assert vs[j].name == s;
        }
        if j :| 0 <= j < |vs| && vs[j].name == s {
          assert j < k ==> vs[..k][j].name == s;
        }
      }
    }
  }

  lemma DeclaredMetaNext(vs: seq<Declared>, k: nat)
    requires k < |vs|
    ensures DeclaredMeta(vs[..k + 1]) == DeclaredMeta(vs[..k])[vs[k].name := vs[k].meta]
  {
    assert vs[..k + 1][..k] == vs[..k];
  }

  lemma FullsNext(i: Instance, shorts: set<string>, s: string)
    ensures Fulls(i, shorts + {s}) == Fulls(i, shorts) + {Full(i, s)}
    ensures s !in shorts ==> Full(i, s) !in Fulls(i, shorts)
  {
    forall x | x in shorts ensures x == s || Full(i, x) != Full(i, s) {
      FullInjective(i, x, s);
    }
  }

  /** Of the volumes looked at so far, those that exist. */
  ghost predicate Listed(i: Instance, h: Host, seen: seq<Declared>, vols: seq<string>)
  {
    && (forall v :: v in vols <==> v in Fulls(i, DeclaredMeta(seen).Keys) && v in h.present)
    && (DistinctNames(seen) ==> Distinct(vols))
  }

  lemma ListedNext(i: Instance, h: Host, seen: seq<Declared>, vols: seq<string>, d: Declared)
    requires Listed(i, h, seen, vols)
    ensures Listed(i, h, seen + [d], if Full(i, d.name) in h.present then vols + [Full(i, d.name)] else vols)
  {
    var all := seen + [d];
    assert all[..|seen|] == seen && all[|seen|] == d;
    FullsNext(i, DeclaredMeta(seen).Keys, d.name);
    DistinctPrefix(vols, Full(i, d.name));
    DeclaredMetaKeys(seen);
    if DistinctNames(all) {
      assert forall j :: 0 <= j < |seen| ==> all[j] == seen[j] && all[j].name != all[|seen|].name;
      assert d.name !in DeclaredMeta(seen);
    }
    hide Full, Fulls, Distinct;
  }

  /** The declared volumes that exist, in declaration order. */
  method InstanceVolumes(i: Instance, h: Host) returns (ok: bool, vols: seq<string>)
    ensures ok ==> Listed(i, h, i.volumes, vols)
    ensures ok <==> DeclaredReachable(i, h)
  {
    hide *;
    vols := [];
    NoneListed(i, h);
    for k := 0 to |i.volumes|
      invariant Listed(i, h, i.volumes[..k], vols)
      invariant forall j :: 0 <= j < k ==> Full(i, i.volumes[j].name) !in h.failing
    {
      var name := Full(i, i.volumes[k].name);
      if name in h.failing {
        DeclaredIsKnown(i, h, k);
        return false, [];
      }
      assert i.volumes[..k + 1] == i.volumes[..k] + [i.volumes[k]];
      ListedNext(i, h, i.volumes[..k], vols, i.volumes[k]);
      if name in h.present {
        vols := vols + [name];
      }
    }
    assert i.volumes[..|i.volumes|] == i.volumes;
    AllInspected(i, h);
    return true, vols;
  }

  lemma NoneListed(i: Instance, h: Host)
    ensures Listed(i, h, [], [])
  {
  }

  lemma DeclaredIsKnown(i: Instance, h: Host, k: nat)
    requires k < |i.volumes| && Full(i, i.volumes[k].name) in h.failing
    ensures !DeclaredReachable(i, h)
  {
    DeclaredMetaKeys(i.volumes);
    assert i.volumes[k].name in DeclaredNames(i);
  }

  lemma AllInspected(i: Instance, h: Host)
    requires forall j :: 0 <= j < |i.volumes| ==> Full(i, i.volumes[j].name) !in h.failing
    ensures DeclaredReachable(i, h)
  {
    DeclaredMetaKeys(i.volumes);
  }

  /** What is known after looking at some of the applied volumes. */
  ghost predicate Tally(i: Instance, h: Host, seen: seq<string>, materialized: nat, lost: seq<string>,
                        recovered: seq<string>, recoveredMeta: map<string, VolMeta>)
  {
    && (materialized == 0 <==> forall s :: s in seen ==> Full(i, s) !in h.present)
    && (forall s :: s in lost <==> s in seen && Full(i, s) !in h.present)
    && (forall v :: v in recovered <==> v in Fulls(i, Renamed(i, seen)) && v in h.present)
    && (Distinct(seen) ==> Distinct(recovered))
    && RenamedMeta(i, h, seen, recoveredMeta)
  }

  lemma TallyHeld(i: Instance, h: Host, seen: seq<string>, n: nat, lost: seq<string>, recovered: seq<string>,
                  m: map<string, VolMeta>, s: string)
    requires Tally(i, h, seen, n, lost, recovered, m) && s in DeclaredNames(i) && Full(i, s) in h.present
    ensures Tally(i, h, seen + [s], n + 1, lost, recovered, m)
  {
    RenamedNext(i, h, seen, s, m);
    RenamedSet(i, seen, s);
    DistinctPrefix(seen, s);
    hide Full, Fulls, Renamed, RenamedMeta, DeclaredNames, Distinct;
  }

  lemma TallyLost(i: Instance, h: Host, seen: seq<string>, n: nat, lost: seq<string>, recovered: seq<string>,
                  m: map<string, VolMeta>, s: string)
    requires Tally(i, h, seen, n, lost, recovered, m) && Full(i, s) !in h.present
    ensures Tally(i, h, seen + [s], n, lost + [s], recovered, m)
  {
    RenamedNext(i, h, seen, s, m);
    RenamedSet(i, seen, s);
    DistinctPrefix(seen, s);
    hide Full, Fulls, Renamed, RenamedMeta, DeclaredNames, Distinct;
  }

  lemma TallyRecovered(i: Instance, h: Host, seen: seq<string>, n: nat, lost: seq<string>, recovered: seq<string>,
                       m: map<string, VolMeta>, s: string)
    requires Tally(i, h, seen, n, lost, recovered, m) && s !in DeclaredNames(i) && Full(i, s) in h.present
    ensures Tally(i, h, seen + [s], n + 1, lost, recovered + [Full(i, s)],
                  if s in i.appliedMeta then m[Full(i, s) := i.appliedMeta[s]] else m)
  {
    RenamedNext(i, h, seen, s, m);
    RenamedSet(i, seen, s);
    DistinctPrefix(seen, s);
    DistinctPrefix(recovered, Full(i, s));
    assert s !in seen ==> s !in Renamed(i, seen);
    hide Full, Fulls, Renamed, RenamedMeta, DeclaredNames, Distinct;
  }

  lemma DistinctPrefix(a: seq<string>, x: string)
    ensures Distinct(a + [x]) <==> Distinct(a) && x !in a
  {
    var all := a + [x];
    assert all[|a|] == x;
    assert forall k :: 0 <= k < |a| ==> all[k] == a[k];
  }

  /** The applied set sorted into what survives and what does not, without asking the
      host again about a name the declaration already covered. */
  method AppliedVolumeLoss(i: Instance, h: Host, present: set<string>, declared: set<string>)
      returns (ok: bool, materialized: nat, lost: seq<string>, recovered: seq<string>,
               recoveredMeta: map<string, VolMeta>)
    requires declared == Fulls(i, DeclaredNames(i)) && present == declared * h.present
    ensures ok ==> Tally(i, h, AppliedNames(i), materialized, lost, recovered, recoveredMeta)
    ensures ok <==> RenamedReachable(i, h)
  {
    hide *;
    var applied := AppliedNames(i);
    materialized, lost, recovered, recoveredMeta := 0, [], [], map[];
    TallyNone(i, h);
    for k := 0 to |applied|
      invariant Tally(i, h, applied[..k], materialized, lost, recovered, recoveredMeta)
      invariant forall j :: 0 <= j < k && applied[j] !in DeclaredNames(i) ==> Full(i, applied[j]) !in h.failing
    {
      var short := applied[k];
      var full := Full(i, short);
      assert applied[..k + 1] == applied[..k] + [short];
      FullsHas(i, DeclaredNames(i), short);
      if full in present {
        TallyHeld(i, h, applied[..k], materialized, lost, recovered, recoveredMeta, short);
        materialized := materialized + 1;
      } else if full in declared {
        TallyLost(i, h, applied[..k], materialized, lost, recovered, recoveredMeta, short);
        lost := lost + [short];
      } else if full in h.failing {
        AppliedIsKnown(i, h, short);
        return false, 0, [], [], map[];
      } else if full !in h.present {
        TallyLost(i, h, applied[..k], materialized, lost, recovered, recoveredMeta, short);
        lost := lost + [short];
      } else {
        TallyRecovered(i, h, applied[..k], materialized, lost, recovered, recoveredMeta, short);
        materialized := materialized + 1;
        recovered := recovered + [full];
        if short in i.appliedMeta {
          recoveredMeta := recoveredMeta[full := i.appliedMeta[short]];
        }
      }
    }
    assert applied[..|applied|] == applied;
    AllFound(i, h);
    return true, materialized, lost, recovered, recoveredMeta;
  }

  lemma TallyNone(i: Instance, h: Host)
    ensures Tally(i, h, [], 0, [], [], map[])
  {
  }

  lemma AppliedIsKnown(i: Instance, h: Host, s: string)
    requires s in AppliedNames(i) && s !in DeclaredNames(i) && Full(i, s) in h.failing
    ensures !RenamedReachable(i, h)
  {
  }

  lemma AllFound(i: Instance, h: Host)
    requires forall j :: 0 <= j < |AppliedNames(i)| && AppliedNames(i)[j] !in DeclaredNames(i) ==>
             Full(i, AppliedNames(i)[j]) !in h.failing
    ensures RenamedReachable(i, h)
  {
  }

  /** Of some applied volumes, those no longer declared. */
  function Renamed(i: Instance, applied: seq<string>): set<string>
  {
    set s | s in applied && s !in DeclaredNames(i)
  }

  /** The applied-time metadata of the renamed volumes that exist, by full name. */
  ghost predicate RenamedMeta(i: Instance, h: Host, applied: seq<string>, m: map<string, VolMeta>)
  {
    && (forall v :: v in m ==> v in Fulls(i, Renamed(i, applied)))
    && (forall s :: s in Renamed(i, applied) && Full(i, s) in h.present && s in i.appliedMeta ==>
          Full(i, s) in m && m[Full(i, s)] == i.appliedMeta[s])
    && (forall s :: s in Renamed(i, applied) && s !in i.appliedMeta ==> Full(i, s) !in m)
  }

  lemma FullsHas(i: Instance, shorts: set<string>, s: string)
    ensures Full(i, s) in Fulls(i, shorts) <==> s in shorts
  {
    if Full(i, s) in Fulls(i, shorts) {
      var x :| x in shorts && Full(i, x) == Full(i, s);
      FullInjective(i, x, s);
    }
  }

  lemma RenamedSet(i: Instance, applied: seq<string>, s: string)
    ensures Renamed(i, applied + [s]) ==
            if s in DeclaredNames(i) then Renamed(i, applied) else Renamed(i, applied) + {s}
    ensures Fulls(i, Renamed(i, applied) + {s}) == Fulls(i, Renamed(i, applied)) + {Full(i, s)}
    ensures Full(i, s) in Fulls(i, Renamed(i, applied)) <==> s in Renamed(i, applied)
  {
    FullsNext(i, Renamed(i, applied), s);
    FullsHas(i, Renamed(i, applied), s);
  }

  lemma RenamedNext(i: Instance, h: Host, applied: seq<string>, s: string, m: map<string, VolMeta>)
    requires RenamedMeta(i, h, applied, m)
    ensures s in DeclaredNames(i) || Full(i, s) !in h.present || s !in i.appliedMeta ==>
            RenamedMeta(i, h, applied + [s], m)
    ensures s !in DeclaredNames(i) && s in i.appliedMeta ==>
            RenamedMeta(i, h, applied + [s], m[Full(i, s) := i.appliedMeta[s]])
  {
    RenamedSet(i, applied, s);
    hide Full, Fulls, Renamed, DeclaredNames;
    if s !in DeclaredNames(i) && s in i.appliedMeta {
      RenamedStored(i, h, applied, s, m);
    }
  }

  lemma RenamedStored(i: Instance, h: Host, applied: seq<string>, s: string, m: map<string, VolMeta>)
    requires RenamedMeta(i, h, applied, m) && s !in DeclaredNames(i) && s in i.appliedMeta
    ensures RenamedMeta(i, h, applied + [s], m[Full(i, s) := i.appliedMeta[s]])
  {
    RenamedSet(i, applied, s);
    hide Full, Fulls, Renamed, DeclaredNames;
    var more, m' := Renamed(i, applied + [s]), m[Full(i, s) := i.appliedMeta[s]];
    forall x | x in more && x != s
      ensures Full(i, x) in h.present && x in i.appliedMeta ==> Full(i, x) in m' && m'[Full(i, x)] == i.appliedMeta[x]
      ensures x !in i.appliedMeta ==> Full(i, x) !in m'
    {
      FullInjective(i, x, s);
    }
  }

  // ----- Classification -----

  /** What the instance holds on the host and what may be exported from it. */
  datatype Classification = Classification(vols: seq<string>, meta: map<string, VolMeta>, materialized: nat,
                                           lost: seq<string>)

  function Lookup(meta: map<string, VolMeta>, name: string): VolMeta
  {
    if name in meta then meta[name] else NO_META
  }

  /** The same metadata, keyed by full name. */
  ghost predicate ByFullName(i: Instance, shorts: map<string, VolMeta>, meta: map<string, VolMeta>)
  {
    meta.Keys == Fulls(i, shorts.Keys) && forall s :: s in shorts ==> meta[Full(i, s)] == shorts[s]
  }

  ghost predicate IsDeclaredMeta(i: Instance, meta: map<string, VolMeta>)
  {
    ByFullName(i, DeclaredMeta(i.volumes), meta)
  }

  /** The metadata map answers every volume held with its effective metadata. */
  ghost predicate Answers(i: Instance, h: Host, meta: map<string, VolMeta>)
  {
    forall s :: s in Holding(i, h) ==> Lookup(meta, Full(i, s)) == EffectiveMeta(i, s)
  }

  ghost predicate DistinctVolumes(i: Instance)
  {
    DistinctNames(i.volumes) && Distinct(AppliedNames(i))
  }

  method ClassifyVolumes(i: Instance, h: Host, meta: map<string, VolMeta>) returns (ok: bool, c: Classification)
    requires IsDeclaredMeta(i, meta)
    ensures ok <==> Reachable(i, h)
    ensures ok ==> forall v :: v in c.vols <==> v in Fulls(i, Holding(i, h))
    ensures ok && DistinctVolumes(i) ==> Distinct(c.vols)
    ensures ok ==> Answers(i, h, c.meta)
    ensures ok ==> (c.materialized == 0 <==> forall s :: s in AppliedNames(i) ==> Full(i, s) !in h.present)
    ensures ok ==> forall s :: s in c.lost <==> s in AppliedNames(i) && Full(i, s) !in h.present
  {
    ReachableParts(i, h);
    var listed, vols := InstanceVolumes(i, h);
    if !listed {
      return false, Classification([], meta, 0, []);
    }
    var present := set v | v in vols;
    if i.applied.Unknown? {
      MergedMeta(i, h, meta, map[]);
      HoldingParts(i, h);
      return true, Classification(vols, meta, 0, []);
    }
    var declared := meta.Keys;
    assert present == declared * h.present;
    var classified, materialized, lost, recovered, recoveredMeta := AppliedVolumeLoss(i, h, present, declared);
    if !classified {
      return false, Classification([], meta, 0, []);
    }
    MergedMeta(i, h, meta, recoveredMeta);
    HoldingParts(i, h);
    DistinctParts(vols, recovered);
    return true, Classification(vols + recovered, recoveredMeta + meta, materialized, lost);
  }

  lemma DistinctParts(a: seq<string>, b: seq<string>)
    requires forall v :: v in a ==> v !in b
    ensures Distinct(a) && Distinct(b) ==> Distinct(a + b)
  {
    var all := a + b;
    assert forall k :: 0 <= k < |all| ==> all[k] == if k < |a| then a[k] else b[k - |a|];
    forall j, k | 0 <= j < k < |all| && Distinct(a) && Distinct(b) ensures all[j] != all[k] {
      if j < |a| <= k {
        assert a[j] in a && b[k - |a|] in b;
      }
    }
  }

  /** What is held is what is declared and present, or applied, renamed and present. */
  lemma HoldingParts(i: Instance, h: Host)
    ensures Fulls(i, Holding(i, h)) == (Fulls(i, DeclaredNames(i)) + Fulls(i, Renamed(i, AppliedNames(i)))) * h.present
    ensures Fulls(i, DeclaredNames(i)) !! Fulls(i, Renamed(i, AppliedNames(i)))
  {
    forall v ensures !(v in Fulls(i, DeclaredNames(i)) && v in Fulls(i, Renamed(i, AppliedNames(i)))) {
      if v in Fulls(i, DeclaredNames(i)) {
        var s :| s in DeclaredNames(i) && v == Full(i, s);
        FullsHas(i, Renamed(i, AppliedNames(i)), s);
      }
    }
    var held := Fulls(i, Holding(i, h));
    forall v
      ensures v in held <==> v in (Fulls(i, DeclaredNames(i)) + Fulls(i, Renamed(i, AppliedNames(i)))) * h.present
    {
      if v in held {
        var s :| s in Holding(i, h) && v == Full(i, s);
        assert s in DeclaredNames(i) || s in Renamed(i, AppliedNames(i));
      }
    }
  }

  lemma MergedMeta(i: Instance, h: Host, meta: map<string, VolMeta>, recoveredMeta: map<string, VolMeta>)
    requires IsDeclaredMeta(i, meta) && RenamedMeta(i, h, AppliedNames(i), recoveredMeta)
    ensures Answers(i, h, recoveredMeta + meta)
  {
    forall s | s in Holding(i, h) ensures Lookup(recoveredMeta + meta, Full(i, s)) == EffectiveMeta(i, s) {
      FullsHas(i, DeclaredNames(i), s);
      assert s in DeclaredNames(i) || s in Renamed(i, AppliedNames(i));
    }
  }
}
