/** The evacuation planner: a request names where each instance of a host goes, and the
    plan is that assignment and nothing else, in a fixed order. */
module Evacuation {
  import opened Sorting

  datatype Key = Key(template: string, slug: string)

  datatype Move = Move(key: Key, toHost: string)

  /** Destinations by instance, or in the legacy form by slug; moves win when present. */
  datatype Request = Request(fromHost: string, bySlug: map<string, string>, moves: seq<Move>)

  // ----- Order of instances -----

  predicate KeyLeq(a: Key, b: Key)
  {
    if a.template == b.template then Leq(a.slug, b.slug) else Leq(a.template, b.template)
  }

  predicate MoveLeq(a: Move, b: Move)
  {
    KeyLeq(a.key, b.key)
  }

  lemma KeyLeqTotal(a: Key, b: Key)
    ensures KeyLeq(a, b) || KeyLeq(b, a)
    ensures KeyLeq(a, b) && KeyLeq(b, a) ==> a == b
  {
    LeqTotal(a.template, b.template);
    LeqTotal(a.slug, b.slug);
    if Leq(a.template, b.template) && Leq(b.template, a.template) {
      LeqAntisymmetric(a.template, b.template);
    }
    if Leq(a.slug, b.slug) && Leq(b.slug, a.slug) {
      LeqAntisymmetric(a.slug, b.slug);
    }
  }

  lemma KeyLeqTransitive(a: Key, b: Key, c: Key)
    requires KeyLeq(a, b) && KeyLeq(b, c)
    ensures KeyLeq(a, c)
  {
    if a.template == b.template == c.template {
      LeqTransitive(a.slug, b.slug, c.slug);
    } else if a.template != b.template && b.template != c.template {
      LeqTransitive(a.template, b.template, c.template);
      if a.template == c.template {
        LeqAntisymmetric(a.template, b.template);
      }
    }
  }

  lemma MoveLeqIsPreorder()
    ensures IsPreorder(MoveLeq)
  {
    forall a: Move, b: Move ensures MoveLeq(a, b) || MoveLeq(b, a) {
      KeyLeqTotal(a.key, b.key);
    }
    forall a: Move, b: Move, c: Move | MoveLeq(a, b) && MoveLeq(b, c) ensures MoveLeq(a, c) {
      KeyLeqTransitive(a.key, b.key, c.key);
    }
  }

  // ----- What a plan is -----

  function Keys(moves: seq<Move>): set<Key>
  {
    set i | 0 <= i < |moves| :: moves[i].key
  }

  predicate DistinctKeys(moves: seq<Move>)
  {
    forall i, j :: 0 <= i < j < |moves| ==> moves[i].key != moves[j].key
  }

  /** One move per instance, to where `dest` says, ordered by template and slug. */
  ghost predicate IsPlan(plan: seq<Move>, dest: map<Key, string>)
  {
    && DistinctKeys(plan) && Keys(plan) == dest.Keys
    && (forall i :: 0 <= i < |plan| ==> plan[i].key in dest && plan[i].toHost == dest[plan[i].key])
    && SortedBy(plan, MoveLeq)
  }

  lemma LeastFirst(p: seq<Move>, q: seq<Move>, dest: map<Key, string>)
    requires IsPlan(p, dest) && IsPlan(q, dest) && p != [] && q != []
    ensures KeyLeq(q[0].key, p[0].key)
  {
    assert p[0].key in Keys(q);
    var j :| 0 <= j < |q| && q[j].key == p[0].key;
    KeyLeqTotal(q[0].key, q[0].key);
    assert j > 0 ==> MoveLeq(q[0], q[j]);
  }

  lemma PlanRest(p: seq<Move>, dest: map<Key, string>)
    requires IsPlan(p, dest) && p != []
    ensures IsPlan(p[1..], dest - {p[0].key})
  {
  }

  lemma NoneIffEmpty(moves: seq<Move>)
    ensures Keys(moves) == {} <==> moves == []
  {
    if moves != [] {
      assert moves[0].key in Keys(moves);
    }
  }

  /** Instances and destinations leave no freedom: there is one plan. */
  lemma {:induction false} PlanIsUnique(p: seq<Move>, q: seq<Move>, dest: map<Key, string>)
    requires IsPlan(p, dest) && IsPlan(q, dest)
    ensures p == q
    decreases |p|
  {
    hide SortedBy, DistinctKeys;
    if p == [] {
      NoneIffEmpty(q);
    } else {
      assert p[0].key in Keys(p);
      NoneIffEmpty(q);
      LeastFirst(p, q, dest);
      LeastFirst(q, p, dest);
      KeyLeqTotal(p[0].key, q[0].key);
      PlanRest(p, dest);
      PlanRest(q, dest);
      PlanIsUnique(p[1..], q[1..], dest - {p[0].key});
      assert p == [p[0]] + p[1..] && q == [q[0]] + q[1..];
    }
  }

  /** An earlier move is of an earlier template, or of the same one and an earlier slug. */
  lemma PlanOrder(plan: seq<Move>, dest: map<Key, string>, i: nat, j: nat)
    requires IsPlan(plan, dest) && i < j < |plan|
    ensures var a, b := plan[i].key, plan[j].key;
            if a.template == b.template then Precedes(a.slug, b.slug) else Precedes(a.template, b.template)
  {
    assert MoveLeq(plan[i], plan[j]);
    LeqIff(plan[i].key.template, plan[j].key.template);
    LeqIff(plan[i].key.slug, plan[j].key.slug);
  }

  // ----- When a request is planned -----

  /** The moves assign each instance on the host once, to a known other host. */
  ghost predicate Complete(moves: seq<Move>, keys: set<Key>, from: string, hosts: set<string>)
  {
    DistinctKeys(moves) && Keys(moves) == keys && Reaches(from, hosts, moves)
  }

  /** No slug is used under two templates. */
  predicate Unambiguous(keys: set<Key>)
  {
    forall a, b :: a in keys && b in keys && a.slug == b.slug ==> a.template == b.template
  }

  function Slugs(keys: set<Key>): set<string>
  {
    set k | k in keys :: k.slug
  }

  ghost predicate Acceptable(req: Request, keys: set<Key>, hosts: set<string>)
  {
    && req.fromHost in hosts
    && if req.moves != [] then Complete(req.moves, keys, req.fromHost, hosts)
       else Unambiguous(keys) && req.bySlug.Keys == Slugs(keys)
            && forall s :: s in req.bySlug ==> req.bySlug[s] in hosts && req.bySlug[s] != req.fromHost
  }

  /** Where a request sends each instance. */
  function Destinations(req: Request, keys: set<Key>): map<Key, string>
  {
    if req.moves != [] then DestinationsOf(req.moves)
    else map k | k in keys && k.slug in req.bySlug :: req.bySlug[k.slug]
  }

  function DestinationsOf(moves: seq<Move>): map<Key, string>
  {
    if moves == [] then map[]
    else DestinationsOf(moves[..|moves| - 1])[moves[|moves| - 1].key := moves[|moves| - 1].toHost]
  }

  ghost predicate SlugOn(keys: set<Key>, s: string)
  {
    exists k :: k in keys && k.slug == s
  }

  /** The legacy form is acceptable exactly when it comes from a known host no two of whose
      instances share a slug, and sends each of their slugs, and no other, to another known
      host. */
  lemma LegacyAcceptableIff(req: Request, keys: set<Key>, hosts: set<string>)
    requires req.moves == []
    ensures Acceptable(req, keys, hosts) <==>
            && req.fromHost in hosts
            && (forall a, b :: a in keys && b in keys && a != b ==> a.slug != b.slug)
            && (forall s :: s in req.bySlug <==> SlugOn(keys, s))
            && (forall s :: s in req.bySlug ==> req.bySlug[s] in hosts && req.bySlug[s] != req.fromHost)
  {
    assert forall s :: s in Slugs(keys) <==> SlugOn(keys, s);
    assert req.bySlug.Keys == Slugs(keys) <==> forall s :: s in req.bySlug <==> SlugOn(keys, s);
    assert Unambiguous(keys) <==> forall a, b :: a in keys && b in keys && a != b ==> a.slug != b.slug;
    hide Slugs, SlugOn, Unambiguous;
  }

  /** Each instance of an assignment once, with its destination. */
  ghost predicate Lists(moves: seq<Move>, dest: map<Key, string>)
  {
    && DistinctKeys(moves) && Keys(moves) == dest.Keys
    && forall i :: 0 <= i < |moves| ==> moves[i].key in dest && moves[i].toHost == dest[moves[i].key]
  }

  /** Whatever is not excluded is allowed: a request that lists any assignment of a known
      host's instances to other known hosts is acceptable and means that assignment. */
  lemma EveryAssignment(req: Request, dest: map<Key, string>, hosts: set<string>)
    requires req.fromHost in hosts && forall k :: k in dest ==> dest[k] in hosts && dest[k] != req.fromHost
    requires Lists(req.moves, dest) && (req.moves == [] ==> req.bySlug == map[])
    ensures Acceptable(req, dest.Keys, hosts) && Destinations(req, dest.Keys) == dest
  {
    var moves := req.moves;
    DestinationsKeys(moves);
    forall k | k in dest ensures k in DestinationsOf(moves) && DestinationsOf(moves)[k] == dest[k] {
      assert k in Keys(moves);
      var i :| 0 <= i < |moves| && moves[i].key == k;
      DestinationsAt(moves, i);
    }
    NoneIffEmpty(moves);
    assert moves == [] ==> dest == map[];
  }

  /** The second request spells out the destinations the first gives by slug. */
  ghost predicate Spells(legacy: Request, spelled: Request, keys: set<Key>)
  {
    && legacy.moves == [] && spelled.moves != [] && legacy.fromHost == spelled.fromHost
    && Unambiguous(keys) && legacy.bySlug.Keys == Slugs(keys)
    && DistinctKeys(spelled.moves) && Keys(spelled.moves) == keys
    && forall i :: 0 <= i < |spelled.moves| ==>
         spelled.moves[i].key.slug in legacy.bySlug
           && spelled.moves[i].toHost == legacy.bySlug[spelled.moves[i].key.slug]
  }

  /** Every destination is a known host other than the source. */
  ghost predicate Reaches(from: string, hosts: set<string>, moves: seq<Move>)
  {
    forall i :: 0 <= i < |moves| ==> moves[i].toHost in hosts && moves[i].toHost != from
  }

  lemma SameAcceptance(legacy: Request, spelled: Request, keys: set<Key>, hosts: set<string>)
    requires Spells(legacy, spelled, keys)
    ensures Acceptable(legacy, keys, hosts) <==> Acceptable(spelled, keys, hosts)
  {
  }

  lemma SameDestinations(legacy: Request, spelled: Request, keys: set<Key>)
    requires Spells(legacy, spelled, keys)
    ensures Destinations(legacy, keys) == Destinations(spelled, keys)
  {
    var moves := spelled.moves;
    forall k | k in keys
      ensures k.slug in legacy.bySlug && k in DestinationsOf(moves) && DestinationsOf(moves)[k] == legacy.bySlug[k.slug]
    {
      assert k in Keys(moves);
      var i :| 0 <= i < |moves| && moves[i].key == k;
      DestinationsAt(moves, i);
    }
    DestinationsKeys(moves);
    hide Keys, Slugs, DistinctKeys, Unambiguous, DestinationsOf;
  }

  /** The slug-keyed form of a request and the form that spells out the same destinations
      are accepted alike and leave the same plan. */
  lemma LegacyFormAgrees(legacy: Request, spelled: Request, keys: set<Key>, hosts: set<string>, p: seq<Move>,
                         q: seq<Move>)
    requires Spells(legacy, spelled, keys)
    ensures Acceptable(legacy, keys, hosts) <==> Acceptable(spelled, keys, hosts)
    ensures IsPlan(p, Destinations(legacy, keys)) && IsPlan(q, Destinations(spelled, keys)) ==> p == q
  {
    hide *;
    SameAcceptance(legacy, spelled, keys, hosts);
    SameDestinations(legacy, spelled, keys);
    if IsPlan(p, Destinations(legacy, keys)) && IsPlan(q, Destinations(spelled, keys)) {
      PlanIsUnique(p, q, Destinations(legacy, keys));
    }
  }

  lemma KeysNext(moves: seq<Move>, m: Move)
    ensures Keys(moves + [m]) == Keys(moves) + {m.key}
  {
    var all := moves + [m];
    assert all[|moves|] == m;
    assert forall i :: 0 <= i < |moves| ==> all[i] == moves[i];
  }

  lemma {:induction false} DestinationsKeys(moves: seq<Move>)
    ensures DestinationsOf(moves).Keys == Keys(moves)
  {
    if moves == [] {
    } else {
      var n := |moves| - 1;
      DestinationsKeys(moves[..n]);
      KeysNext(moves[..n], moves[n]);
      assert moves == moves[..n] + [moves[n]];
    }
  }

  lemma {:induction false} DestinationsAt(moves: seq<Move>, i: nat)
    requires DistinctKeys(moves) && i < |moves|
    ensures moves[i].key in DestinationsOf(moves) && DestinationsOf(moves)[moves[i].key] == moves[i].toHost
  {
    var n := |moves| - 1;
    if i < n {
      DestinationsAt(moves[..n], i);
      assert moves[..n][i] == moves[i];
    }
  }
}
