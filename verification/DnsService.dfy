/** The operations that check and change the claims, on the daemon's own loops, proved to
    do exactly what the registry's steps say. */
module DnsService {
  import opened DnsClaims
  import opened DnsRegistry

  datatype Result = Ok | Refused | UnknownTemplate

  /** The instance shares no name with another on its host. */
  ghost predicate KeyClear(r: Registry, k: Key)
    requires k in r.specs
  {
    forall p :: p in r.specs && IsPeer(k, p, k.slug) ==> ClaimsAt(r, k) !! ClaimsAt(r, p)
  }

  ghost predicate HostClear(r: Registry, host: string, id: string)
  {
    forall k :: k in r.specs && k.template == id && k.host == host ==> KeyClear(r, k)
  }

  /** The whole-registry condition, host by host. */
  lemma NoneClashIff(r: Registry, id: string, hosts: seq<string>)
    requires forall k :: k in r.specs ==> k.host in hosts
    ensures NoneClash(r, id) <==> forall i :: 0 <= i < |hosts| ==> HostClear(r, hosts[i], id)
  {
  }

  class Service {
    const ingressNet: string
    /** The configured hosts; every instance lives on one. */
    var hosts: seq<string>
    var templates: map<string, Meta>
    var specs: map<Key, seq<Network>>
    ghost var renaming: set<(Key, Key)>

    ghost predicate Valid()
      reads this
    {
      forall k :: k in specs ==> k.host in hosts
    }

    ghost function View(): Registry
      reads this
    {
      Registry(ingressNet, templates, specs, renaming)
    }

    constructor (ingressNet: string, hosts: seq<string>)
      ensures Valid() && Unique(View()) && View() == Registry(ingressNet, map[], map[], {})
    {
      this.ingressNet, this.hosts := ingressNet, hosts;
      templates, specs, renaming := map[], map[], {};
    }

    /** The instances on a host, each once. */
    method ListSpecNetworks(host: string) returns (keys: seq<Key>)
      ensures forall k :: k in keys <==> k in specs && k.host == host
    {
      keys := [];
      var todo := specs.Keys;
      while todo != {}
        invariant todo <= specs.Keys
        invariant forall k :: k in keys <==> k in specs.Keys - todo && k.host == host
        decreases |todo|
      {
        var k :| k in todo;
        todo := todo - {k};
        if k.host == host {
          keys := keys + [k];
        }
      }
    }

    /** The claims of a host's instances, with some templates replaced by `metaFor`. */
    ghost predicate Covers(host: string, now: map<string, Meta>, keys: seq<Key>, claims: seq<NetClaim>)
      reads this
    {
      var r := View().(templates := now);
      && (forall i :: 0 <= i < |claims| ==>
            && Key(host, claims[i].template, claims[i].slug) in keys
            && Key(host, claims[i].template, claims[i].slug) in specs
            && DistinctNames(claims[i].joins)
            && ClaimNames(claims[i]) == ClaimsAt(r, Key(host, claims[i].template, claims[i].slug)))
      && (forall k :: k in keys && k.template in now ==> Includes(claims, k))
    }

    static ghost predicate Includes(claims: seq<NetClaim>, k: Key)
    {
      exists i :: 0 <= i < |claims| && claims[i].template == k.template && claims[i].slug == k.slug
    }

    /** Claims of every instance on the host as they would be under `metaFor`; an instance
        whose template is gone is skipped. */
    method HostClaims(host: string, metaFor: map<string, Meta>) returns (claims: seq<NetClaim>, ghost keys: seq<Key>)
      ensures forall k :: k in keys <==> k in specs && k.host == host
      ensures Covers(host, templates + metaFor, keys, claims)
    {
      var rows := ListSpecNetworks(host);
      keys := rows;
      ghost var now := templates + metaFor;
      var cache := metaFor;
      claims := [];
      for n := 0 to |rows|
        invariant Cached(metaFor, cache)
        invariant Covers(host, now, rows[..n], claims)
      {
        var k := rows[n];
        assert rows[..n + 1] == rows[..n] + [k];
        var known, meta;
        known, meta, cache := MetaFor(k.template, metaFor, cache);
        if known {
          var c := NewClaim(ingressNet, k.template, k.slug, WithNetworks(meta, specs[k]));
          CoversNext(host, now, rows[..n], claims, k, c);
          claims := claims + [c];
        }
      }
      assert rows[..|rows|] == rows;
    }

    /** What the template cache holds is what a fresh lookup would give. */
    ghost predicate Cached(metaFor: map<string, Meta>, cache: map<string, Meta>)
      reads this
    {
      && metaFor.Keys <= cache.Keys <= (templates + metaFor).Keys
      && forall t :: t in cache ==> cache[t] == (templates + metaFor)[t]
    }

    method MetaFor(t: string, ghost metaFor: map<string, Meta>, cache: map<string, Meta>)
        returns (known: bool, meta: Meta, cache': map<string, Meta>)
      requires Cached(metaFor, cache)
      ensures Cached(metaFor, cache')
      ensures known <==> t in templates + metaFor
      ensures known ==> meta == (templates + metaFor)[t]
    {
      cache' := cache;
      if t in cache {
        return true, cache[t], cache;
      }
      if t !in templates {
        return false, Meta(false, [], []), cache;
      }
      return true, templates[t], cache[t := templates[t]];
    }

    lemma CoversNext(host: string, now: map<string, Meta>, keys: seq<Key>, claims: seq<NetClaim>, k: Key, c: NetClaim)
      requires Covers(host, now, keys, claims)
      requires k in specs && k == Key(host, c.template, c.slug) && k.template in now && DistinctNames(c.joins)
      requires ClaimNames(c) == ClaimsAt(View().(templates := now), k)
      ensures Covers(host, now, keys + [k], claims + [c])
    {
      var more := claims + [c];
      assert more[|claims|] == c && Includes(more, k);
      forall p | Includes(claims, p) ensures Includes(more, p) {
        var i :| 0 <= i < |claims| && claims[i].template == p.template && claims[i].slug == p.slug;
        assert more[i] == claims[i];
      }
    }

    /** Drops the named instances of a template. */
    static method Excluding(claims: seq<NetClaim>, tmpl: string, slugs: seq<string>) returns (out: seq<NetClaim>)
      ensures forall c :: c in out <==> c in claims && !(c.template == tmpl && c.slug in slugs)
    {
      out := [];
      for i := 0 to |claims|
        invariant forall c :: c in out <==> c in claims[..i] && !(c.template == tmpl && c.slug in slugs)
      {
        if !(claims[i].template == tmpl && claims[i].slug in slugs) {
          out := out + [claims[i]];
        }
      }
    }

    /** Accepts an apply exactly when its names clash with no peer's. */
    method ValidateNetworkAliases(k: Key, networks: seq<Network>, superseded: string) returns (ok: bool)
      requires k.template in templates
      ensures ok <==> ApplyAllowed(View(), k, networks, superseded)
    {
      var meta := templates[k.template];
      var mine := NewClaim(ingressNet, k.template, k.slug, WithNetworks(meta, networks));
      assert ClaimNames(mine) == ClaimsWith(View(), k, meta, networks);
      if |mine.joins| == 0 {
        NoNetworksNoNames(mine);
        return true;
      }
      var all, keys := HostClaims(k.host, map[k.template := meta]);
      assert templates + map[k.template := meta] == templates;
      ok := NoPeerClashes(k, [k.slug, superseded], superseded, mine, templates, keys, all);
      assert View().(templates := templates) == View();
    }

    method NoPeerClashes(k: Key, slugs: seq<string>, ghost superseded: string, mine: NetClaim,
                         ghost now: map<string, Meta>, ghost keys: seq<Key>, all: seq<NetClaim>)
        returns (ok: bool)
      requires forall p :: p in keys <==> p in specs && p.host == k.host
      requires forall x :: x in slugs <==> x == k.slug || x == superseded
      requires Covers(k.host, now, keys, all) && DistinctNames(mine.joins)
      ensures ok <==> forall p :: p in specs && IsPeer(k, p, superseded) ==>
              ClaimNames(mine) !! ClaimsAt(View().(templates := now), p)
    {
      var peers := Excluding(all, k.template, slugs);
      var conflict := FirstNameConflictFor(mine, peers);
      PeersDecide(k, superseded, ClaimNames(mine), now, keys, all, peers);
      return conflict.NoConflict?;
    }

    static lemma NoNetworksNoNames(c: NetClaim)
      requires c.joins == []
      ensures ClaimNames(c) == {}
    {
      assert Joined(c.joins) == {};
    }

    /** Disjoint from every listed peer is disjoint from every peer instance. */
    lemma PeersDecide(k: Key, superseded: string, names: set<Name>, now: map<string, Meta>,
                      keys: seq<Key>, all: seq<NetClaim>, peers: seq<NetClaim>)
      requires forall p :: p in keys <==> p in specs && p.host == k.host
      requires Covers(k.host, now, keys, all)
      requires forall c :: c in peers <==>
               c in all && !(c.template == k.template && (c.slug == k.slug || c.slug == superseded))
      ensures (forall i :: 0 <= i < |peers| ==> names !! ClaimNames(peers[i])) <==>
              forall p :: p in specs && IsPeer(k, p, superseded) ==> names !! ClaimsAt(View().(templates := now), p)
    {
    }

    method CheckHost(host: string, id: string, meta: Meta, ghost r: Registry) returns (ok: bool)
      requires r == View().(templates := templates[id := meta])
      ensures ok <==> HostClear(r, host, id)
    {
      hide KeyClear, ClaimsAt, ClaimNames, Service.Includes;
      var claims, keys := HostClaims(host, map[id := meta]);
      assert templates + map[id := meta] == r.templates;
      for i := 0 to |claims|
        invariant forall j :: 0 <= j < i && claims[j].template == id ==> KeyClear(r, Key(host, id, claims[j].slug))
      {
        if claims[i].template == id {
          ghost var k := Key(host, id, claims[i].slug);
          var clear := CheckClaim(host, claims[i], r, keys, claims);
          if !clear {
            assert k in r.specs && !KeyClear(r, k);
            return false;
          }
        }
      }
      AllClear(host, id, r, keys, claims);
      return true;
    }

    method CheckClaim(host: string, c: NetClaim, ghost r: Registry, ghost keys: seq<Key>, claims: seq<NetClaim>)
        returns (ok: bool)
      requires r == View().(templates := r.templates) && c in claims
      requires forall p :: p in keys <==> p in specs && p.host == host
      requires Covers(host, r.templates, keys, claims)
      ensures Key(host, c.template, c.slug) in specs
      ensures ok <==> KeyClear(r, Key(host, c.template, c.slug))
    {
      ok := NoPeerClashes(Key(host, c.template, c.slug), [c.slug], c.slug, c, r.templates, keys, claims);
    }

    lemma AllClear(host: string, id: string, r: Registry, keys: seq<Key>, claims: seq<NetClaim>)
      requires r == View().(templates := r.templates) && id in r.templates
      requires forall p :: p in keys <==> p in specs && p.host == host
      requires Covers(host, r.templates, keys, claims)
      requires forall j :: 0 <= j < |claims| && claims[j].template == id ==> KeyClear(r, Key(host, id, claims[j].slug))
      ensures HostClear(r, host, id)
    {
    }

    /** Accepts an edit exactly when no instance of the template would clash on any host. */
    method CheckTemplateNetworkConflicts(id: string, meta: Meta) returns (ok: bool)
      requires Valid()
      ensures ok <==> NoneClash(View().(templates := templates[id := meta]), id)
    {
      ghost var r := View().(templates := templates[id := meta]);
      hide HostClear, NoneClash;
      var known := hosts;
      NoneClashIff(r, id, known);
      for h := 0 to |known|
        invariant forall q :: 0 <= q < h ==> HostClear(r, known[q], id)
      {
        var clear := CheckHost(known[h], id, meta, r);
        if !clear {
          return false;
        }
      }
      return true;
    }

    // ----- The operations -----

    method Apply(k: Key, networks: seq<Network>, superseded: string) returns (res: Result)
      requires Valid() && k.host in hosts
      modifies `specs, `renaming
      ensures Valid() && View() == Step(old(View()), Op.Apply(k, networks, superseded))
      ensures res.Ok? <==> ApplyAllowed(old(View()), k, networks, superseded)
      ensures res.UnknownTemplate? <==> k.template !in templates
      ensures old(Unique(View())) ==> Unique(View())
    {
      hide Unique;
      if Unique(View()) {
        StepKeepsUnique(View(), Op.Apply(k, networks, superseded));
      }
      if k.template !in templates {
        return UnknownTemplate;
      }
      var ok := ValidateNetworkAliases(k, networks, superseded);
      if !ok {
        return Refused;
      }
      specs := specs[k := networks];
      ghost var old_ := Key(k.host, k.template, superseded);
      renaming := renaming + {(k, old_), (old_, k)};
      return Ok;
    }

    method UpdateTemplate(id: string, meta: Meta) returns (res: Result)
      requires Valid()
      modifies `templates
      ensures Valid() && View() == Step(old(View()), Op.UpdateTemplate(id, meta))
      ensures res.Ok? <==> EditAllowed(old(View()), id, meta)
      ensures res.UnknownTemplate? <==> id !in old(templates)
      ensures old(Unique(View()) && !SlipsThrough(View(), Op.UpdateTemplate(id, meta))) ==> Unique(View())
    {
      hide Unique, NoneClash;
      if Unique(View()) && !SlipsThrough(View(), Op.UpdateTemplate(id, meta)) {
        StepKeepsUnique(View(), Op.UpdateTemplate(id, meta));
      }
      if id !in templates {
        return UnknownTemplate;
      }
      var was := templates[id];
      var changed := NetworksChanged(was.networks, meta.networks);
      if changed || was.containers != meta.containers {
        var ok := CheckTemplateNetworkConflicts(id, meta);
        if !ok {
          return Refused;
        }
      }
      templates := templates[id := meta];
      return Ok;
    }
  }
}
