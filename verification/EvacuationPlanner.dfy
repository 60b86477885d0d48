/** The planner's own loops, proved to accept exactly the acceptable requests and to
    return the one plan each stands for. */
module EvacuationPlanner {
  import opened Sorting
  import opened Evacuation

  datatype Outcome = Planned(plan: seq<Move>) | UnknownHost | SameHost | Invalid

  /** Template by slug, unless some slug is used under two templates. */
  method TemplatesBySlug(keys: set<Key>) returns (ok: bool, bySlug: map<string, string>)
    ensures ok <==> Unambiguous(keys)
    ensures ok ==> bySlug.Keys == Slugs(keys) && forall s :: s in bySlug ==> Key(bySlug[s], s) in keys
  {
    bySlug := map[];
    var todo := keys;
    while todo != {}
      invariant todo <= keys
      invariant bySlug.Keys == Slugs(keys - todo)
      invariant forall k :: k in keys - todo ==> bySlug[k.slug] == k.template
      invariant forall s :: s in bySlug ==> Key(bySlug[s], s) in keys
    {
      var k :| k in todo;
      if k.slug in bySlug && bySlug[k.slug] != k.template {
        assert Key(bySlug[k.slug], k.slug) in keys;
        return false, bySlug;
      }
      assert keys - (todo - {k}) == (keys - todo) + {k};
      todo := todo - {k};
      bySlug := bySlug[k.slug := k.template];
    }
    assert keys - {} == keys;
    return true, bySlug;
  }

  /** The moves a request stands for; in the legacy form every slug on the host must be
      given a destination, and nothing else. */
  method ResolveMoves(req: Request, keys: set<Key>) returns (ok: bool, moves: seq<Move>)
    ensures req.moves != [] ==> ok && moves == req.moves
    ensures req.moves == [] ==> (ok <==> Unambiguous(keys) && req.bySlug.Keys == Slugs(keys))
    ensures req.moves == [] && ok ==> FromSlugs(req.bySlug, keys, moves)
  {
    if req.moves != [] {
      return true, req.moves;
    }
    var distinct, template := TemplatesBySlug(keys);
    if !distinct {
      return false, [];
    }
    if exists s :: s in template.Keys && s !in req.bySlug {
      return false, [];
    }
    moves := [];
    var todo := req.bySlug.Keys;
    ghost var done: set<string> := {};
    while todo != {}
      invariant todo == req.bySlug.Keys - done && done <= req.bySlug.Keys && done <= template.Keys
      invariant Expanded(req.bySlug, template, done, moves)
      decreases todo
    {
      var s :| s in todo;
      if s !in template {
        return false, [];
      }
      ExpandedNext(req.bySlug, template, done, moves, s);
      moves := moves + [Move(Key(template[s], s), req.bySlug[s])];
      done := done + {s};
      todo := todo - {s};
    }
    assert done == req.bySlug.Keys;
    AllExpanded(req.bySlug, template, keys, moves);
    return true, moves;
  }

  /** One move for each instance, to its slug's destination. */
  ghost predicate FromSlugs(bySlug: map<string, string>, keys: set<Key>, moves: seq<Move>)
  {
    && DistinctKeys(moves) && Keys(moves) == keys
    && forall i :: 0 <= i < |moves| ==> moves[i].key.slug in bySlug && moves[i].toHost == bySlug[moves[i].key.slug]
  }

  /** The slugs done so far, expanded to instances. */
  ghost predicate Expanded(bySlug: map<string, string>, template: map<string, string>, done: set<string>,
                           moves: seq<Move>)
  {
    && DistinctKeys(moves)
    && (forall i :: 0 <= i < |moves| ==>
          var s := moves[i].key.slug;
          s in done && s in template && moves[i].key.template == template[s] && s in bySlug
            && moves[i].toHost == bySlug[s])
    && (forall s :: s in done && s in template ==> Key(template[s], s) in Keys(moves))
  }

  lemma ExpandedNext(bySlug: map<string, string>, template: map<string, string>, done: set<string>, moves: seq<Move>,
                     s: string)
    requires Expanded(bySlug, template, done, moves) && s in bySlug && s in template && s !in done
    ensures Expanded(bySlug, template, done + {s}, moves + [Move(Key(template[s], s), bySlug[s])])
  {
    KeysNext(moves, Move(Key(template[s], s), bySlug[s]));
  }

  lemma AllExpanded(bySlug: map<string, string>, template: map<string, string>, keys: set<Key>, moves: seq<Move>)
    requires Unambiguous(keys) && template.Keys == Slugs(keys) && bySlug.Keys == template.Keys
    requires forall s :: s in template ==> Key(template[s], s) in keys
    requires Expanded(bySlug, template, bySlug.Keys, moves)
    ensures FromSlugs(bySlug, keys, moves)
  {
    forall k ensures k in Keys(moves) <==> k in keys {
      if k in keys {
        assert k.slug in template && Key(template[k.slug], k.slug) in keys;
        assert k == Key(template[k.slug], k.slug);
      }
      if k in Keys(moves) {
        var i :| 0 <= i < |moves| && moves[i].key == k;
        assert k == Key(template[k.slug], k.slug);
      }
    }
  }

  /** Each move names an instance on the host, once, and goes to a known other host. */
  method CheckMoves(moves: seq<Move>, keys: set<Key>, from: string, hosts: set<string>) returns (r: Outcome)
    ensures r.Planned? <==> Complete(moves, keys, from, hosts)
    ensures r.Planned? ==> r.plan == moves
    ensures r.SameHost? ==> exists i :: 0 <= i < |moves| && moves[i].toHost == from
    ensures !r.UnknownHost?
  {
    var seen: set<Key> := {};
    for i := 0 to |moves|
      invariant seen == Keys(moves[..i]) && seen <= keys && DistinctKeys(moves[..i]) && Reaches(from, hosts, moves[..i])
    {
      var m := moves[i];
      assert moves[..i + 1] == moves[..i] + [m];
      KeysNext(moves[..i], m);
      if m.key !in keys || m.key in seen {
        Unusable(moves, keys, i);
        return Invalid;
      }
      if m.toHost == from {
        return SameHost;
      }
      if m.toHost !in hosts {
        return Invalid;
      }
      seen := seen + {m.key};
    }
    assert moves[..|moves|] == moves;
    if exists k :: k in keys && k !in seen {
      return Invalid;
    }
    return Planned(moves);
  }

  lemma Unusable(moves: seq<Move>, keys: set<Key>, i: nat)
    requires i < |moves| && (moves[i].key !in keys || moves[i].key in Keys(moves[..i]))
    ensures !(DistinctKeys(moves) && Keys(moves) == keys)
  {
  }

  /** A plan exactly for the acceptable requests, and then the one plan the request
      stands for: every instance on the host once, in order, to a known other host. */
  method ResolveEvacuation(req: Request, keys: set<Key>, hosts: set<string>) returns (r: Outcome)
    ensures r.Planned? <==> Acceptable(req, keys, hosts)
    ensures r.Planned? ==> IsPlan(r.plan, Destinations(req, keys)) && Complete(r.plan, keys, req.fromHost, hosts)
    ensures r.UnknownHost? <==> req.fromHost !in hosts
  {
    if req.fromHost !in hosts {
      return UnknownHost;
    }
    var ok, moves := ResolveMoves(req, keys);
    if !ok {
      return Invalid;
    }
    r := CheckMoves(moves, keys, req.fromHost, hosts);
    if !r.Planned? {
      NotAcceptable(req, keys, hosts, moves);
      return;
    }
    NowAcceptable(req, keys, hosts, moves);
    SortedPlan(req, keys, hosts, moves);
    r := Planned(Sort(moves, MoveLeq));
  }

  lemma NotAcceptable(req: Request, keys: set<Key>, hosts: set<string>, moves: seq<Move>)
    requires !Complete(moves, keys, req.fromHost, hosts)
    requires if req.moves != [] then moves == req.moves else FromSlugs(req.bySlug, keys, moves)
    ensures !Acceptable(req, keys, hosts)
  {
  }

  lemma NowAcceptable(req: Request, keys: set<Key>, hosts: set<string>, moves: seq<Move>)
    requires Complete(moves, keys, req.fromHost, hosts) && req.fromHost in hosts
    requires if req.moves != [] then moves == req.moves
             else Unambiguous(keys) && req.bySlug.Keys == Slugs(keys) && FromSlugs(req.bySlug, keys, moves)
    ensures Acceptable(req, keys, hosts)
  {
  }

  lemma SameMoves(moves: seq<Move>, plan: seq<Move>)
    requires forall m :: m in plan <==> m in moves
    ensures Keys(plan) == Keys(moves)
  {
    forall k | k in Keys(plan) ensures k in Keys(moves) {
      var i :| 0 <= i < |plan| && plan[i].key == k;
      assert plan[i] in moves;
    }
    forall k | k in Keys(moves) ensures k in Keys(plan) {
      var i :| 0 <= i < |moves| && moves[i].key == k;
      assert moves[i] in plan;
    }
  }

  lemma SortKeepsDistinctKeys(moves: seq<Move>)
    requires DistinctKeys(moves)
    ensures DistinctKeys(Sort(moves, MoveLeq))
  {
    var plan := Sort(moves, MoveLeq);
    SortMembers(moves, MoveLeq);
    SortDistinct(moves, MoveLeq);
    forall i, j | 0 <= i < j < |plan| ensures plan[i].key != plan[j].key {
      assert plan[i] in moves && plan[j] in moves;
      assert plan[i] != plan[j];
    }
  }

  /** A move sends its instance where the request says. */
  lemma MoveDestination(req: Request, keys: set<Key>, moves: seq<Move>, m: Move)
    requires DistinctKeys(moves) && Keys(moves) == keys && m in moves
    requires if req.moves != [] then moves == req.moves else FromSlugs(req.bySlug, keys, moves)
    ensures m.key in Destinations(req, keys) && m.toHost == Destinations(req, keys)[m.key]
  {
    var i :| 0 <= i < |moves| && moves[i] == m;
    DestinationsAt(moves, i);
    assert m.key in Keys(moves);
  }

  lemma DestinationKeys(req: Request, keys: set<Key>, moves: seq<Move>)
    requires Keys(moves) == keys
    requires if req.moves != [] then moves == req.moves else FromSlugs(req.bySlug, keys, moves)
    ensures Destinations(req, keys).Keys == keys
  {
    DestinationsKeys(moves);
    forall k | k in keys && req.moves == [] ensures k.slug in req.bySlug {
      assert k in Keys(moves);
    }
  }

  lemma SortedPlan(req: Request, keys: set<Key>, hosts: set<string>, moves: seq<Move>)
    requires Complete(moves, keys, req.fromHost, hosts)
    requires if req.moves != [] then moves == req.moves else FromSlugs(req.bySlug, keys, moves)
    ensures IsPlan(Sort(moves, MoveLeq), Destinations(req, keys))
            && Complete(Sort(moves, MoveLeq), keys, req.fromHost, hosts)
  {
    hide DistinctKeys, Keys, Destinations, FromSlugs, MoveLeq, Sort;
    var plan := Sort(moves, MoveLeq);
    MoveLeqIsPreorder();
    SortSorted(moves, MoveLeq);
    SortMembers(moves, MoveLeq);
    SameMoves(moves, plan);
    SortKeepsDistinctKeys(moves);
    DestinationKeys(req, keys, moves);
    forall i | 0 <= i < |plan|
      ensures plan[i].key in Destinations(req, keys) && plan[i].toHost == Destinations(req, keys)[plan[i].key]
      ensures plan[i].toHost in hosts && plan[i].toHost != req.fromHost
    {
      assert plan[i] in moves;
      MoveDestination(req, keys, moves, plan[i]);
    }
  }
}
