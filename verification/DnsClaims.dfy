/** Shared-network DNS names: which names an instance answers to on which network, and
    how the daemon decides whether two instances collide. Podman itself does not police
    this. */
module DnsClaims {
  import opened Sorting

  /** A network membership with the aliases declared on it. */
  datatype Network = Network(name: string, aliases: seq<string>)

  /** The part of a template that decides its instances' DNS names; `containers` are its
      literal container names, which podman registers as aliases too. */
  datatype Meta = Meta(ingress: bool, networks: seq<Network>, containers: seq<string>)

  /** A name answered to on a network. */
  datatype Name = Name(net: string, name: string)

  function PodName(tmpl: string, slug: string): string
  {
    tmpl + "-" + slug
  }

  function Joined(ns: seq<Network>): set<string>
  {
    set i | 0 <= i < |ns| :: ns[i].name
  }

  function Aliases(ns: seq<Network>): set<Name>
  {
    set i, a | 0 <= i < |ns| && a in ns[i].aliases :: Name(ns[i].name, a)
  }

  predicate DistinctNames(ns: seq<Network>)
  {
    forall i, j :: 0 <= i < j < |ns| ==> ns[i].name != ns[j].name
  }

  /** What a validated declaration looks like: no network, and no alias of one, twice. */
  predicate Validated(ns: seq<Network>)
  {
    DistinctNames(ns) && forall i :: 0 <= i < |ns| ==> Distinct(ns[i].aliases)
  }

  /** Memberships before merging: the shared ingress network leads (its name is empty
      when ingress is disabled), then the declarations. */
  function Wanted(ingressNet: string, m: Meta): seq<Network>
  {
    (if ingressNet != "" && m.ingress then [Network(ingressNet, [])] else []) + m.networks
  }

  function WithNetworks(m: Meta, extra: seq<Network>): Meta
  {
    m.(networks := m.networks + extra)
  }

  /** Every name an instance answers to: its pod name on each network it joins, its
      aliases, and its container names everywhere but on the ingress network. */
  function Names(ingressNet: string, tmpl: string, slug: string, joins: seq<Network>,
                 containers: seq<string>): set<Name>
  {
    (set n | n in Joined(joins) :: Name(n, PodName(tmpl, slug)))
    + Aliases(joins)
    + (set n, c | n in Joined(joins) && n != ingressNet && c in containers :: Name(n, c))
  }

  function Claims(ingressNet: string, tmpl: string, slug: string, m: Meta): set<Name>
  {
    Names(ingressNet, tmpl, slug, Wanted(ingressNet, m), m.containers)
  }

  /** An instance joins the ingress network if it is enabled and wanted, and what its
      template declares. */
  ghost predicate Joins(ingressNet: string, m: Meta, net: string)
  {
    || (m.ingress && ingressNet != "" && net == ingressNet)
    || exists i :: 0 <= i < |m.networks| && m.networks[i].name == net
  }

  ghost predicate Declares(m: Meta, net: string, alias: string)
  {
    exists i :: 0 <= i < |m.networks| && m.networks[i].name == net && alias in m.networks[i].aliases
  }

  /** It answers on each such network to its template and slug joined by a dash, to the
      aliases declared there, and except on the ingress network to its container names. */
  lemma ClaimsIff(ingressNet: string, tmpl: string, slug: string, m: Meta, net: string, name: string)
    ensures Name(net, name) in Claims(ingressNet, tmpl, slug, m) <==>
            && Joins(ingressNet, m, net)
            && (name == tmpl + "-" + slug || Declares(m, net, name) || (net != ingressNet && name in m.containers))
  {
    var lead := if ingressNet != "" && m.ingress then [Network(ingressNet, [])] else [];
    var want := Wanted(ingressNet, m);
    JoinedThen(lead, m.networks);
    assert net in Joined(lead) <==> lead != [] && lead[0].name == net;
    assert net in Joined(want) <==> Joins(ingressNet, m, net);
    assert Name(net, name) in Aliases(want) <==> Declares(m, net, name);
    hide Joined, Aliases, Joins, Declares;
  }

  lemma JoinedThen(a: seq<Network>, b: seq<Network>)
    ensures Joined(a + b) == Joined(a) + Joined(b)
    ensures Aliases(a + b) == Aliases(a) + Aliases(b)
  {
    var all := a + b;
    assert forall i :: 0 <= i < |a| ==> all[i] == a[i];
    assert forall i :: 0 <= i < |b| ==> all[|a| + i] == b[i];
    forall n | n in Joined(all) ensures n in Joined(a) + Joined(b) {
      var i :| 0 <= i < |all| && all[i].name == n;
      assert if i < |a| then a[i].name == n else b[i - |a|].name == n;
    }
    forall x | x in Aliases(all) ensures x in Aliases(a) + Aliases(b) {
      var i, l :| 0 <= i < |all| && l in all[i].aliases && x == Name(all[i].name, l);
      assert if i < |a| then all[i] == a[i] else all[i] == b[i - |a|];
    }
  }

  lemma JoinedNext(ns: seq<Network>, n: Network)
    ensures Joined(ns + [n]) == Joined(ns) + {n.name}
    ensures Aliases(ns + [n]) == Aliases(ns) + set a | a in n.aliases :: Name(n.name, a)
  {
    var all := ns + [n];
    assert all[|ns|] == n;
    assert forall i :: 0 <= i < |ns| ==> all[i] == ns[i];
  }

  /** Adds to one membership the aliases it does not have yet. */
  method MergeAliases(into: seq<string>, more: seq<string>) returns (r: seq<string>)
    ensures forall a :: a in r <==> a in into || a in more
    ensures Distinct(into) ==> Distinct(r)
  {
    r := into;
    for i := 0 to |more|
      invariant forall a :: a in r <==> a in into || a in more[..i]
      invariant Distinct(into) ==> Distinct(r)
    {
      if more[i] !in r {
        r := r + [more[i]];
      }
    }
  }

  /** `at` finds each joined network's place. */
  ghost predicate Indexed(at: map<string, nat>, out: seq<Network>)
  {
    && (forall n :: n in at ==> at[n] < |out| && out[at[n]].name == n)
    && (forall i :: 0 <= i < |out| ==> out[i].name in at)
  }

  method Join(out: seq<Network>, at: map<string, nat>, n: Network) returns (out': seq<Network>, at': map<string, nat>)
    requires DistinctNames(out) && Indexed(at, out)
    ensures DistinctNames(out') && Indexed(at', out')
    ensures Joined(out') == Joined(out) + {n.name}
    ensures Aliases(out') == Aliases(out) + set a | a in n.aliases :: Name(n.name, a)
  {
    if n.name !in at {
      JoinedNext(out, n);
      out', at' := out + [n], at[n.name := |out|];
    } else {
      var i := at[n.name];
      var merged := MergeAliases(out[i].aliases, n.aliases);
      out', at' := out[i := Network(n.name, merged)], at;
      MergedAliases(out, out', i, n);
    }
  }

  /** Resolves the networks an instance joins. Naming a network twice merges rather than
      drops: nothing declared is lost and no network is joined twice. */
  method JoinNetworks(ingressNet: string, m: Meta) returns (out: seq<Network>)
    ensures DistinctNames(out)
    ensures Joined(out) == Joined(Wanted(ingressNet, m)) && Aliases(out) == Aliases(Wanted(ingressNet, m))
  {
    var want := Wanted(ingressNet, m);
    out := [];
    var at: map<string, nat> := map[];
    for k := 0 to |want|
      invariant DistinctNames(out) && Indexed(at, out)
      invariant Joined(out) == Joined(want[..k]) && Aliases(out) == Aliases(want[..k])
    {
      hide Joined, Aliases, DistinctNames, Indexed;
      assert want[..k + 1] == want[..k] + [want[k]];
      JoinedNext(want[..k], want[k]);
      out, at := Join(out, at, want[k]);
    }
    assert want[..|want|] == want;
  }

  lemma MergedAliases(before: seq<Network>, after: seq<Network>, i: nat, n: Network)
    requires i < |before| == |after| && before[i].name == n.name
    requires after == before[i := after[i]] && after[i].name == n.name
    requires forall a :: a in after[i].aliases <==> a in before[i].aliases || a in n.aliases
    ensures Joined(after) == Joined(before)
    ensures Aliases(after) == Aliases(before) + set a | a in n.aliases :: Name(n.name, a)
  {
    assert forall j :: 0 <= j < |before| ==> after[j].name == before[j].name;
    forall x | x in Aliases(before) ensures x in Aliases(after) {
      var j, a :| 0 <= j < |before| && a in before[j].aliases && x == Name(before[j].name, a);
      assert a in after[j].aliases;
    }
    forall a | a in n.aliases ensures Name(n.name, a) in Aliases(after) {
      assert a in after[i].aliases;
    }
    forall x | x in Aliases(after) ensures x in Aliases(before) + set a | a in n.aliases :: Name(n.name, a) {
      var j, a :| 0 <= j < |after| && a in after[j].aliases && x == Name(after[j].name, a);
      if j == i && a !in before[i].aliases {
        assert a in n.aliases;
      } else {
        assert a in before[j].aliases;
      }
    }
  }

  /** One instance's claim, as compared with others. */
  datatype NetClaim = NetClaim(template: string, slug: string, joins: seq<Network>, containers: seq<string>,
                               ingressNet: string)

  function ClaimNames(c: NetClaim): set<Name>
  {
    Names(c.ingressNet, c.template, c.slug, c.joins, c.containers)
  }

  method NewClaim(ingressNet: string, tmpl: string, slug: string, m: Meta) returns (c: NetClaim)
    ensures c.template == tmpl && c.slug == slug && DistinctNames(c.joins)
    ensures ClaimNames(c) == Claims(ingressNet, tmpl, slug, m)
  {
    var joins := JoinNetworks(ingressNet, m);
    c := NetClaim(tmpl, slug, joins, m.containers, ingressNet);
  }

  lemma NamesOn(c: NetClaim, i: nat, name: string)
    requires DistinctNames(c.joins) && i < |c.joins|
    ensures Name(c.joins[i].name, name) in ClaimNames(c) <==>
            || name == PodName(c.template, c.slug) || name in c.joins[i].aliases
            || (c.joins[i].name != c.ingressNet && name in c.containers)
  {
  }

  /** The names a claim registers on one network, and whether it joins it at all. */
  method ClaimedNames(c: NetClaim, net: string) returns (names: seq<string>, joined: bool)
    requires DistinctNames(c.joins)
    ensures joined <==> net in Joined(c.joins)
    ensures forall n :: n in names <==> Name(net, n) in ClaimNames(c)
  {
    for i := 0 to |c.joins|
      invariant forall j :: 0 <= j < i ==> c.joins[j].name != net
    {
      if c.joins[i].name == net {
        names := [PodName(c.template, c.slug)] + c.joins[i].aliases;
        if net != c.ingressNet {
          names := names + c.containers;
        }
        forall n ensures n in names <==> Name(net, n) in ClaimNames(c) {
          NamesOn(c, i, n);
        }
        return names, true;
      }
    }
    names, joined := [], false;
  }

  datatype Conflict = NoConflict | Conflict(net: string, name: string, peer: nat)

  /** The first peer answering to one of `mine` on `net`. */
  method ConflictOn(net: string, mine: seq<string>, peers: seq<NetClaim>) returns (r: Conflict)
    requires forall i :: 0 <= i < |peers| ==> DistinctNames(peers[i].joins)
    ensures r.NoConflict? ==> forall i, n :: 0 <= i < |peers| && n in mine ==> Name(net, n) !in ClaimNames(peers[i])
    ensures r.Conflict? ==>
            r.net == net && r.name in mine && r.peer < |peers| && Name(net, r.name) in ClaimNames(peers[r.peer])
  {
    for i := 0 to |peers|
      invariant forall q, n :: 0 <= q < i && n in mine ==> Name(net, n) !in ClaimNames(peers[q])
    {
      var theirs, joined := ClaimedNames(peers[i], net);
      for n := 0 to |theirs|
        invariant forall q :: 0 <= q < n ==> theirs[q] !in mine
      {
        if theirs[n] in mine {
          return Conflict(net, theirs[n], i);
        }
      }
    }
    return NoConflict;
  }

  /** Reports a collision exactly when the subject shares a name with some peer. Clashes
      between two peers are not the subject's business. */
  method FirstNameConflictFor(subject: NetClaim, peers: seq<NetClaim>) returns (r: Conflict)
    requires DistinctNames(subject.joins) && forall i :: 0 <= i < |peers| ==> DistinctNames(peers[i].joins)
    ensures r.NoConflict? ==> forall i :: 0 <= i < |peers| ==> ClaimNames(subject) !! ClaimNames(peers[i])
    ensures r.Conflict? ==>
            r.peer < |peers| && Name(r.net, r.name) in ClaimNames(subject)
              && Name(r.net, r.name) in ClaimNames(peers[r.peer])
  {
    for j := 0 to |subject.joins|
      invariant forall x :: x in ClaimNames(subject) && x.net in Joined(subject.joins[..j]) ==>
                forall i :: 0 <= i < |peers| ==> x !in ClaimNames(peers[i])
    {
      var net := subject.joins[j].name;
      var mine, _ := ClaimedNames(subject, net);
      r := ConflictOn(net, mine, peers);
      if r.Conflict? {
        return;
      }
      assert subject.joins[..j + 1] == subject.joins[..j] + [subject.joins[j]];
      JoinedNext(subject.joins[..j], subject.joins[j]);
      forall x | x in ClaimNames(subject) && x.net == net
        ensures forall i :: 0 <= i < |peers| ==> x !in ClaimNames(peers[i])
      {
        assert x == Name(net, x.name) && x.name in mine;
      }
    }
    assert subject.joins[..|subject.joins|] == subject.joins;
    return NoConflict;
  }

  // ----- Did an edit change the shared networks? -----

  /** The aliases declared per network; a repeated network's last declaration wins. */
  function AliasesByName(ns: seq<Network>): map<string, seq<string>>
  {
    if ns == [] then map[] else AliasesByName(ns[..|ns| - 1])[ns[|ns| - 1].name := ns[|ns| - 1].aliases]
  }

  predicate SameMembership(was: map<string, seq<string>>, n: Network)
  {
    n.name in was && |was[n.name]| == |n.aliases| && forall a :: a in n.aliases ==> a in was[n.name]
  }

  predicate Unchanged(old_: seq<Network>, new_: seq<Network>)
  {
    |old_| == |new_| && forall i :: 0 <= i < |new_| ==> SameMembership(AliasesByName(old_), new_[i])
  }

  method NetworksChanged(old_: seq<Network>, new_: seq<Network>) returns (changed: bool)
    ensures changed <==> !Unchanged(old_, new_)
  {
    if |old_| != |new_| {
      return true;
    }
    var was: map<string, seq<string>> := map[];
    for i := 0 to |old_|
      invariant was == AliasesByName(old_[..i])
    {
      assert old_[..i + 1][..i] == old_[..i];
      was := was[old_[i].name := old_[i].aliases];
    }
    assert old_[..|old_|] == old_;
    for i := 0 to |new_|
      invariant forall j :: 0 <= j < i ==> SameMembership(was, new_[j])
    {
      var n := new_[i];
      if n.name !in was || |was[n.name]| != |n.aliases| {
        return true;
      }
      for a := 0 to |n.aliases|
        invariant forall b :: 0 <= b < a ==> n.aliases[b] in was[n.name]
      {
        if n.aliases[a] !in was[n.name] {
          assert n.aliases[a] in n.aliases;
          return true;
        }
      }
    }
    return false;
  }

  lemma {:induction false} AliasesByNameFrom(ns: seq<Network>)
    ensures AliasesByName(ns).Keys == Joined(ns)
    ensures forall n, a :: n in AliasesByName(ns) && a in AliasesByName(ns)[n] ==> Name(n, a) in Aliases(ns)
  {
    if ns == [] {
    } else {
      var k := |ns| - 1;
      AliasesByNameFrom(ns[..k]);
      assert ns == ns[..k] + [ns[k]];
      JoinedNext(ns[..k], ns[k]);
      hide Joined, Aliases;
    }
  }

  /** The last declaration of a network is the one compared. */
  lemma {:induction false} AliasesByNameAt(ns: seq<Network>, i: nat)
    requires i < |ns| && forall j :: i < j < |ns| ==> ns[i].name != ns[j].name
    ensures ns[i].name in AliasesByName(ns) && AliasesByName(ns)[ns[i].name] == ns[i].aliases
  {
    var k := |ns| - 1;
    if i < k {
      AliasesByNameAt(ns[..k], i);
      assert ns[..k][i] == ns[i];
    }
  }

  /** An edit the comparison calls unchanged adds no membership and no alias, whether or
      not either declaration was ever validated. */
  lemma UnchangedAddsNothing(old_: seq<Network>, new_: seq<Network>)
    requires Unchanged(old_, new_)
    ensures Joined(new_) <= Joined(old_) && Aliases(new_) <= Aliases(old_)
  {
    AliasesByNameFrom(old_);
    forall x | x in Aliases(new_) ensures x in Aliases(old_) {
      var i, a :| 0 <= i < |new_| && a in new_[i].aliases && x == Name(new_[i].name, a);
      assert SameMembership(AliasesByName(old_), new_[i]);
    }
    forall n | n in Joined(new_) ensures n in Joined(old_) {
      var i :| 0 <= i < |new_| && new_[i].name == n;
      assert SameMembership(AliasesByName(old_), new_[i]);
    }
  }

  lemma {:induction false} JoinedSize(ns: seq<Network>)
    requires DistinctNames(ns)
    ensures |Joined(ns)| == |ns|
  {
    if ns == [] {
    } else {
      var k := |ns| - 1;
      JoinedSize(ns[..k]);
      assert ns == ns[..k] + [ns[k]];
      JoinedNext(ns[..k], ns[k]);
    }
  }

  lemma SameAliasesIff(old_: seq<string>, new_: seq<string>)
    requires Distinct(old_) && Distinct(new_)
    ensures (|old_| == |new_| && forall a :: a in new_ ==> a in old_) <==> forall a :: a in old_ <==> a in new_
  {
    DistinctSize(old_);
    DistinctSize(new_);
    var o, n := set a | a in old_, set a | a in new_;
    if |old_| == |new_| && forall a :: a in new_ ==> a in old_ {
      assert n <= o;
      SubsetOfEqualSize(n, o);
      assert forall a :: a in old_ <==> a in o;
      assert forall a :: a in new_ <==> a in n;
    }
    if forall a :: a in old_ <==> a in new_ {
      assert o == n;
    }
  }

  lemma AliasesAt(ns: seq<Network>, i: nat, a: string)
    requires DistinctNames(ns) && i < |ns|
    ensures Name(ns[i].name, a) in Aliases(ns) <==> a in ns[i].aliases
  {
  }

  /** On validated declarations the comparison is exact: it says unchanged precisely when
      the networks and the aliases on each are the same, in whatever order. */
  lemma UnchangedIff(old_: seq<Network>, new_: seq<Network>)
    requires Validated(old_) && Validated(new_)
    ensures Unchanged(old_, new_) <==> Joined(old_) == Joined(new_) && Aliases(old_) == Aliases(new_)
  {
    AliasesByNameFrom(old_);
    JoinedSize(old_);
    JoinedSize(new_);
    if Unchanged(old_, new_) {
      UnchangedAddsNothing(old_, new_);
      SubsetOfEqualSize(Joined(new_), Joined(old_));
      forall x | x in Aliases(old_) ensures x in Aliases(new_) {
        var i, a :| 0 <= i < |old_| && a in old_[i].aliases && x == Name(old_[i].name, a);
        assert old_[i].name in Joined(new_);
        var j :| 0 <= j < |new_| && new_[j].name == old_[i].name;
        assert SameMembership(AliasesByName(old_), new_[j]);
        AliasesByNameAt(old_, i);
        SameAliasesIff(old_[i].aliases, new_[j].aliases);
      }
    }
    if Joined(old_) == Joined(new_) && Aliases(old_) == Aliases(new_) {
      forall j | 0 <= j < |new_| ensures SameMembership(AliasesByName(old_), new_[j]) {
        assert new_[j].name in Joined(old_);
        var i :| 0 <= i < |old_| && old_[i].name == new_[j].name;
        AliasesByNameAt(old_, i);
        forall a ensures a in old_[i].aliases <==> a in new_[j].aliases {
          AliasesAt(old_, i, a);
          AliasesAt(new_, j, a);
        }
        SameAliasesIff(old_[i].aliases, new_[j].aliases);
      }
    }
  }
}
