/** No two instances on a host answer to the same name on the same network, over every
    serialized run of applies, deletes, renames and template edits. */
module DnsRegistry {
  import opened DnsClaims

  datatype Key = Key(host: string, template: string, slug: string)

  /** The catalog and the desired-state rows with each instance's own extra networks.
      `renaming` holds the pairs of an instance and the one it supersedes. */
  datatype Registry = Registry(ingressNet: string, templates: map<string, Meta>, specs: map<Key, seq<Network>>,
                               renaming: set<(Key, Key)>)

  /** An instance's names under a given template. */
  function ClaimsWith(r: Registry, k: Key, m: Meta, extra: seq<Network>): set<Name>
  {
    Claims(r.ingressNet, k.template, k.slug, WithNetworks(m, extra))
  }

  function ClaimsAt(r: Registry, k: Key): set<Name>
    requires k in r.specs
  {
    if k.template in r.templates then ClaimsWith(r, k, r.templates[k.template], r.specs[k]) else {}
  }

  datatype Op =
    | Apply(key: Key, networks: seq<Network>, superseded: string)
    | Delete(key: Key)
    | CreateTemplate(id: string, meta: Meta)
    | UpdateTemplate(id: string, meta: Meta)
    | DeleteTemplate(id: string)

  /** The instance itself and the one it replaces do not count as its peers. */
  predicate IsPeer(k: Key, p: Key, superseded: string)
  {
    p.host == k.host && !(p.template == k.template && (p.slug == k.slug || p.slug == superseded))
  }

  ghost predicate ApplyAllowed(r: Registry, k: Key, networks: seq<Network>, superseded: string)
  {
    && k.template in r.templates
    && forall p :: p in r.specs && IsPeer(k, p, superseded) ==>
         ClaimsWith(r, k, r.templates[k.template], networks) !! ClaimsAt(r, p)
  }

  /** An edit whose networks and container names look unchanged skips the check. */
  predicate SkipsCheck(was: Meta, now: Meta)
  {
    Unchanged(was.networks, now.networks) && was.containers == now.containers
  }

  ghost predicate EditAllowed(r: Registry, id: string, meta: Meta)
  {
    && id in r.templates
    && (SkipsCheck(r.templates[id], meta) || NoneClash(r.(templates := r.templates[id := meta]), id))
  }

  /** No instance of the template clashes with any other instance on its host. */
  ghost predicate NoneClash(r: Registry, id: string)
  {
    forall k, p :: k in r.specs && p in r.specs && k.template == id && k != p && k.host == p.host ==>
      ClaimsAt(r, k) !! ClaimsAt(r, p)
  }

  /** What an operation does to the store; a refused one does nothing. */
  ghost function Step(r: Registry, op: Op): Registry
  {
    match op
    case Apply(k, networks, superseded) =>
      if !ApplyAllowed(r, k, networks, superseded) then r
      else
        var old_ := Key(k.host, k.template, superseded);
        r.(specs := r.specs[k := networks], renaming := r.renaming + {(k, old_), (old_, k)})
    case Delete(k) =>
      r.(specs := r.specs - {k}, renaming := set p | p in r.renaming && p.0 != k && p.1 != k)
    case CreateTemplate(id, meta) =>
      if id in r.templates then r else r.(templates := r.templates[id := meta])
    case UpdateTemplate(id, meta) =>
      if EditAllowed(r, id, meta) then r.(templates := r.templates[id := meta]) else r
    case DeleteTemplate(id) =>
      if exists k :: k in r.specs && k.template == id then r else r.(templates := r.templates - {id})
  }

  /** No two instances on a host claim the same name, save one and its replacement. */
  ghost predicate Unique(r: Registry)
  {
    && (forall k :: k in r.specs ==> k.template in r.templates)
    && (forall a, b :: a in r.specs && b in r.specs && a != b && a.host == b.host && (a, b) !in r.renaming ==>
          ClaimsAt(r, a) !! ClaimsAt(r, b))
    && (forall a, b :: (a, b) in r.renaming ==> (b, a) in r.renaming)
  }

  /** The edit makes its instances join the ingress network, which they did not before. */
  predicate AddsIngress(ingressNet: string, was: Meta, now: Meta)
  {
    ingressNet != "" && now.ingress && !was.ingress && ingressNet !in Joined(was.networks)
  }

  /** The names that count for a claim: which networks are joined, and the aliases. */
  lemma WantedParts(ingressNet: string, m: Meta, extra: seq<Network>)
    ensures var w := Wanted(ingressNet, WithNetworks(m, extra));
            && Joined(w) ==
               (if ingressNet != "" && m.ingress then {ingressNet} else {}) + Joined(m.networks) + Joined(extra)
            && Aliases(w) == Aliases(m.networks) + Aliases(extra)
  {
    var lead := if ingressNet != "" && m.ingress then [Network(ingressNet, [])] else [];
    JoinedThen(m.networks, extra);
    JoinedThen(lead, m.networks + extra);
    if ingressNet != "" && m.ingress {
      assert lead[0].name == ingressNet;
      assert Joined(lead) == {ingressNet};
    }
    assert Aliases(lead) == {};
  }

  lemma ClaimsAreOnJoined(ingressNet: string, tmpl: string, slug: string, m: Meta, extra: seq<Network>)
    ensures forall x :: x in Claims(ingressNet, tmpl, slug, WithNetworks(m, extra)) ==>
            x.net in Joined(Wanted(ingressNet, WithNetworks(m, extra)))
  {
  }

  lemma NamesMonotone(ingressNet: string, tmpl: string, slug: string, few: seq<Network>, many: seq<Network>,
                      containers: seq<string>)
    requires Joined(few) <= Joined(many) && Aliases(few) <= Aliases(many)
    ensures Names(ingressNet, tmpl, slug, few, containers) <= Names(ingressNet, tmpl, slug, many, containers)
  {
  }

  lemma UncheckedEditGivesUpNames(ingressNet: string, was: Meta, now: Meta, tmpl: string, slug: string,
                                  extra: seq<Network>)
    requires SkipsCheck(was, now) && !AddsIngress(ingressNet, was, now)
    ensures Claims(ingressNet, tmpl, slug, WithNetworks(now, extra)) <=
            Claims(ingressNet, tmpl, slug, WithNetworks(was, extra))
  {
    UnchangedAddsNothing(was.networks, now.networks);
    WantedParts(ingressNet, was, extra);
    WantedParts(ingressNet, now, extra);
    NamesMonotone(ingressNet, tmpl, slug, Wanted(ingressNet, WithNetworks(now, extra)),
                  Wanted(ingressNet, WithNetworks(was, extra)), was.containers);
  }

  // ----- What is refused, and only that -----

  ghost predicate Share(a: set<Name>, b: set<Name>, net: string, name: string)
  {
    Name(net, name) in a && Name(net, name) in b
  }

  /** An apply is refused exactly when its template is unknown or some instance on its host,
      other than itself and the one it supersedes, would answer to one of its names. */
  lemma ApplyRefusedIff(r: Registry, k: Key, networks: seq<Network>, superseded: string)
    ensures ApplyAllowed(r, k, networks, superseded) <==>
            && k.template in r.templates
            && forall p, net, name ::
              p in r.specs && p.host == k.host && p != k && p != Key(k.host, k.template, superseded) ==>
                !Share(ClaimsWith(r, k, r.templates[k.template], networks), ClaimsAt(r, p), net, name)
  {
    hide ClaimsWith, ClaimsAt;
    if k.template in r.templates {
      var mine := ClaimsWith(r, k, r.templates[k.template], networks);
      forall p | p in r.specs && IsPeer(k, p, superseded)
        ensures mine !! ClaimsAt(r, p) <==> forall net, name :: !Share(mine, ClaimsAt(r, p), net, name)
      {
        NoneShared(mine, ClaimsAt(r, p));
      }
    }
  }

  lemma NoneShared(a: set<Name>, b: set<Name>)
    ensures a !! b <==> forall net, name :: !Share(a, b, net, name)
  {
    if x :| x in a && x in b {
      assert Share(a, b, x.net, x.name);
    }
  }

  /** On validated templates an edit skips the check exactly when it leaves the networks,
      the aliases on them and the container names as they are. */
  lemma SkipsCheckIff(was: Meta, now: Meta)
    requires Validated(was.networks) && Validated(now.networks)
    ensures SkipsCheck(was, now) <==>
            && Joined(was.networks) == Joined(now.networks) && Aliases(was.networks) == Aliases(now.networks)
            && was.containers == now.containers
  {
    UnchangedIff(was.networks, now.networks);
  }

  /** Deleting an instance frees its names: another that clashed with it alone may now be
      applied. A template goes exactly when no instance uses it, and none is overwritten by
      creating it again. */
  lemma DeletingFrees(r: Registry, k: Key, j: Key, networks: seq<Network>, superseded: string, id: string, meta: Meta)
    ensures var r' := Step(r, Delete(k));
            && r'.templates == r.templates && r'.specs.Keys == r.specs.Keys - {k}
            && (j.template in r.templates
                && (forall p :: p in r.specs && p != k && IsPeer(j, p, superseded) ==>
                      ClaimsWith(r, j, r.templates[j.template], networks) !! ClaimsAt(r, p))
                ==> ApplyAllowed(r', j, networks, superseded))
    ensures id in Step(r, DeleteTemplate(id)).templates <==>
            id in r.templates && exists p :: p in r.specs && p.template == id
    ensures var r' := Step(r, CreateTemplate(id, meta));
            id in r'.templates && r'.templates[id] == if id in r.templates then r.templates[id] else meta
  {
    hide Claims;
  }

  // ----- Every operation keeps the names unique -----

  /** The one edit that can break uniqueness: it skips the check and joins the ingress network. */
  predicate SlipsThrough(r: Registry, op: Op)
  {
    && op.UpdateTemplate? && op.id in r.templates
    && SkipsCheck(r.templates[op.id], op.meta) && AddsIngress(r.ingressNet, r.templates[op.id], op.meta)
  }

  lemma ApplyKeepsUnique(r: Registry, k: Key, networks: seq<Network>, superseded: string)
    requires Unique(r) && ApplyAllowed(r, k, networks, superseded)
    ensures Unique(Step(r, Apply(k, networks, superseded)))
  {
    hide Claims;
    var r' := Step(r, Apply(k, networks, superseded));
    assert forall p :: p in r.specs && p != k ==> ClaimsAt(r', p) == ClaimsAt(r, p);
    forall p | p in r.specs && p != k && p.host == k.host && (k, p) !in r'.renaming
      ensures ClaimsAt(r', k) !! ClaimsAt(r', p)
    {
      assert p.template == k.template && p.slug == superseded ==> p == Key(k.host, k.template, superseded);
      assert IsPeer(k, p, superseded);
    }
    forall a, b | a in r'.specs && b in r'.specs && a != b && a.host == b.host && (a, b) !in r'.renaming
      ensures ClaimsAt(r', a) !! ClaimsAt(r', b)
    {
      if b == k {
        assert (b, a) !in r'.renaming;
      }
    }
  }

  lemma DeleteKeepsUnique(r: Registry, k: Key)
    requires Unique(r)
    ensures Unique(Step(r, Delete(k)))
  {
  }

  lemma EditKeepsUnique(r: Registry, id: string, meta: Meta)
    requires Unique(r) && EditAllowed(r, id, meta) && !SlipsThrough(r, UpdateTemplate(id, meta))
    ensures Unique(Step(r, UpdateTemplate(id, meta)))
  {
    hide Claims;
    var r' := Step(r, UpdateTemplate(id, meta));
    var was := r.templates[id];
    assert forall p :: p in r.specs && p.template != id ==> ClaimsAt(r', p) == ClaimsAt(r, p);
    if SkipsCheck(was, meta) {
      forall p | p in r.specs && p.template == id ensures ClaimsAt(r', p) <= ClaimsAt(r, p) {
        UncheckedEditGivesUpNames(r.ingressNet, was, meta, id, p.slug, r.specs[p]);
      }
    } else {
      assert NoneClash(r', id);
    }
  }

  lemma CatalogKeepsUnique(r: Registry, op: Op)
    requires Unique(r) && (op.CreateTemplate? || op.DeleteTemplate?)
    ensures Unique(Step(r, op))
  {
    hide Claims, Names;
    var r' := Step(r, op);
    assert forall p :: p in r.specs ==> ClaimsAt(r', p) == ClaimsAt(r, p);
  }

  lemma StepKeepsUnique(r: Registry, op: Op)
    requires Unique(r) && !SlipsThrough(r, op)
    ensures Unique(Step(r, op))
  {
    match op
    case Apply(k, networks, superseded) =>
      if ApplyAllowed(r, k, networks, superseded) {
        ApplyKeepsUnique(r, k, networks, superseded);
      }
    case Delete(k) => DeleteKeepsUnique(r, k);
    case UpdateTemplate(id, meta) =>
      if EditAllowed(r, id, meta) {
        EditKeepsUnique(r, id, meta);
      }
    case _ => CatalogKeepsUnique(r, op);
  }

  ghost function Exec(r: Registry, ops: seq<Op>): Registry
    decreases |ops|
  {
    if ops == [] then r else Exec(Step(r, ops[0]), ops[1..])
  }

  ghost predicate NoneSlips(r: Registry, ops: seq<Op>)
    decreases |ops|
  {
    ops == [] || (!SlipsThrough(r, ops[0]) && NoneSlips(Step(r, ops[0]), ops[1..]))
  }

  /** Over every serialized run of operations, no two instances on a host answer to
      the same name, except an instance and the one it supersedes. */
  lemma {:induction false} RunKeepsUnique(r: Registry, ops: seq<Op>)
    requires Unique(r) && NoneSlips(r, ops)
    ensures Unique(Exec(r, ops))
    decreases |ops|
  {
    if ops == [] {
    } else {
      StepKeepsUnique(r, ops[0]);
      RunKeepsUnique(Step(r, ops[0]), ops[1..]);
    }
  }

  lemma UniqueOfTwo(r: Registry, a: Key, b: Key)
    requires a != b && a.host == b.host && r.specs.Keys == {a, b} && r.renaming == {}
    requires a.template in r.templates && b.template in r.templates
    ensures Unique(r) <==> ClaimsAt(r, a) !! ClaimsAt(r, b)
  {
    hide Claims, ClaimsAt;
  }

  /** A store on which turning ingress on gives an instance a pod name that another
      already holds as an alias on the ingress network. */
  lemma SlippedEditClashes(ingressNet: string, was: Meta, now: Meta) returns (r: Registry, op: Op)
    requires SkipsCheck(was, now) && AddsIngress(ingressNet, was, now)
    ensures r.ingressNet == ingressNet && "a" in r.templates && r.templates["a"] == was
            && op == UpdateTemplate("a", now)
    ensures Unique(r) && !Unique(Step(r, op))
  {
    var a, b := Key("h", "a", "x"), Key("h", "b", "y");
    var other := Meta(false, [Network(ingressNet, [PodName("a", "x")])], []);
    r := Registry(ingressNet, map["a" := was, "b" := other], map[a := [], b := []], {});
    op := UpdateTemplate("a", now);
    var clash := Name(ingressNet, PodName("a", "x"));
    OnlyOnIngress(ingressNet, "b", "y", clash.name, other);
    JoiningClaimsPodName(ingressNet, "a", "x", now);
    assert Joined([]) == {};
    WantedParts(ingressNet, was, []);
    ClaimsAreOnJoined(ingressNet, "a", "x", was, []);
    assert ClaimsAt(r, a) == Claims(ingressNet, "a", "x", WithNetworks(was, []));
    UniqueOfTwo(r, a, b);
    UniqueOfTwo(Step(r, op), a, b);
    assert clash in ClaimsAt(Step(r, op), a) && clash in ClaimsAt(Step(r, op), b);
  }

  lemma OnlyOnIngress(ingressNet: string, tmpl: string, slug: string, alias: string, m: Meta)
    requires m == Meta(false, [Network(ingressNet, [alias])], [])
    ensures Name(ingressNet, alias) in Claims(ingressNet, tmpl, slug, WithNetworks(m, []))
    ensures forall x :: x in Claims(ingressNet, tmpl, slug, WithNetworks(m, [])) ==> x.net == ingressNet
  {
    assert Wanted(ingressNet, WithNetworks(m, [])) == m.networks;
    assert alias in m.networks[0].aliases;
    assert Name(m.networks[0].name, alias) in Aliases(m.networks);
  }

  lemma JoiningClaimsPodName(ingressNet: string, tmpl: string, slug: string, m: Meta)
    requires ingressNet != "" && m.ingress
    ensures Name(ingressNet, PodName(tmpl, slug)) in Claims(ingressNet, tmpl, slug, WithNetworks(m, []))
  {
    WantedParts(ingressNet, m, []);
  }

  ghost predicate SafeOnEveryStore(ingressNet: string, was: Meta, now: Meta)
  {
    forall r: Registry, id :: r.ingressNet == ingressNet && id in r.templates && r.templates[id] == was && Unique(r) ==>
      Unique(Step(r, UpdateTemplate(id, now)))
  }

  /** Skipping the check is safe exactly when the edit does not add the ingress membership. */
  lemma SkippingIsSafeIff(ingressNet: string, was: Meta, now: Meta)
    requires SkipsCheck(was, now)
    ensures SafeOnEveryStore(ingressNet, was, now) <==> !AddsIngress(ingressNet, was, now)
  {
    if AddsIngress(ingressNet, was, now) {
      var r, op := SlippedEditClashes(ingressNet, was, now);
      assert !Unique(Step(r, UpdateTemplate("a", now)));
    } else {
      forall r: Registry, id | r.ingressNet == ingressNet && id in r.templates && r.templates[id] == was && Unique(r)
        ensures Unique(Step(r, UpdateTemplate(id, now)))
      {
        StepKeepsUnique(r, UpdateTemplate(id, now));
      }
    }
  }
}
