/** Registry tag resolution: the tags of a repository grouped by the image they name, and
    the ones that could not be resolved. */
module TagListing {
  import opened Options
  import opened Sorting

  // ----- Following the pages -----

  /** A page of names and the path its Link header gives for the next, empty at the end. */
  datatype Page = Page(tags: seq<string>, next: string)

  const MAX_PAGINATION_PAGES := 1000

  /** The pages reached from a path, each linked from the one before, to the last. */
  ghost predicate IsChain(fetch: string -> Option<Page>, path: string, pages: seq<Page>)
    decreases |pages|
  {
    if pages == [] then path == ""
    else path != "" && fetch(path) == Some(pages[0]) && IsChain(fetch, pages[0].next, pages[1..])
  }

  function Tags(pages: seq<Page>): seq<string>
  {
    if pages == [] then [] else Tags(pages[..|pages| - 1]) + pages[|pages| - 1].tags
  }

  /** Page after page: `Tags` joins them in the order they were read. */
  lemma {:induction false} TagsInOrder(a: seq<Page>, b: seq<Page>)
    ensures Tags(a + b) == Tags(a) + Tags(b)
  {
    if b == [] {
      assert a + b == a;
    } else {
      hide Tags;
      var n := |b| - 1;
      TagsInOrder(a, b[..n]);
      TagsNext(b[..n], b[n]);
      TagsNext(a + b[..n], b[n]);
      assert b[..n] + [b[n]] == b && a + b[..n] + [b[n]] == a + b;
    }
  }

  lemma TagsNext(pages: seq<Page>, p: Page)
    ensures Tags(pages + [p]) == Tags(pages) + p.tags
  {
    assert (pages + [p])[..|pages|] == pages;
  }

  /** From a path, the pages lead on to another path. */
  ghost predicate Leads(fetch: string -> Option<Page>, path: string, pages: seq<Page>, to: string)
    decreases |pages|
  {
    if pages == [] then path == to
    else path != "" && fetch(path) == Some(pages[0]) && Leads(fetch, pages[0].next, pages[1..], to)
  }

  lemma {:induction false} LeadsNext(fetch: string -> Option<Page>, path: string, pages: seq<Page>, to: string, p: Page)
    requires Leads(fetch, path, pages, to) && to != "" && fetch(to) == Some(p)
    ensures Leads(fetch, path, pages + [p], p.next)
    decreases |pages|
  {
    if pages != [] {
      LeadsNext(fetch, pages[0].next, pages[1..], to, p);
      assert (pages + [p])[1..] == pages[1..] + [p];
    } else {
      assert ([p])[1..] == [];
    }
  }

  lemma {:induction false} LeadsToEnd(fetch: string -> Option<Page>, path: string, pages: seq<Page>)
    requires Leads(fetch, path, pages, "")
    ensures IsChain(fetch, path, pages)
    decreases |pages|
  {
    if pages == [] {
    } else {
      LeadsToEnd(fetch, pages[0].next, pages[1..]);
    }
  }

  /** A walk that has not reached the end is a prefix of any chain that does. */
  lemma {:induction false} ChainsExtend(fetch: string -> Option<Page>, path: string, pages: seq<Page>, to: string,
                                        all: seq<Page>)
    requires Leads(fetch, path, pages, to) && IsChain(fetch, path, all)
    ensures |pages| <= |all|
    ensures to != "" ==> |pages| < |all| && fetch(to).Some?
    decreases |pages|
  {
    if pages == [] {
    } else {
      ChainsExtend(fetch, pages[0].next, pages[1..], to, all[1..]);
    }
  }

  /** The names on all pages, in order, exactly when the pages end within the bound. */
  method ListTags(fetch: string -> Option<Page>, first: string)
      returns (ok: bool, tags: seq<string>, ghost pages: seq<Page>)
    ensures ok ==> IsChain(fetch, first, pages) && |pages| <= MAX_PAGINATION_PAGES && tags == Tags(pages)
    ensures !ok ==> forall all :: IsChain(fetch, first, all) ==> |all| > MAX_PAGINATION_PAGES
  {
    var path, n := first, 0;
    tags, pages := [], [];
    while path != ""
      invariant Leads(fetch, first, pages, path) && n == |pages| <= MAX_PAGINATION_PAGES && tags == Tags(pages)
      decreases MAX_PAGINATION_PAGES - n
    {
      if n >= MAX_PAGINATION_PAGES || fetch(path).None? {
        forall all | IsChain(fetch, first, all) ensures |all| > MAX_PAGINATION_PAGES {
          ChainsExtend(fetch, first, pages, path, all);
        }
        return false, [], pages;
      }
      var page := fetch(path).value;
      LeadsNext(fetch, first, pages, path, page);
      assert (pages + [page])[..|pages|] == pages;
      pages := pages + [page];
      tags, path, n := tags + page.tags, page.next, n + 1;
    }
    LeadsToEnd(fetch, first, pages);
    return true, tags, pages;
  }

  // ----- Grouping -----

  datatype Manifest = Manifest(digest: string, size: nat, config: string)

  /** What the registry answers about one listed tag: its manifest, a digest-only request
      when that fails, and a fresh listing when both do. */
  datatype Reply = Reply(get: Option<Manifest>, head: Option<string>, relisted: Option<seq<string>>)

  datatype Group = Group(digest: string, tags: seq<string>, size: nat, config: string, created: int)

  datatype Dropped = Dropped(tag: string, vanished: bool)

  function Resolve(r: Reply): Option<Manifest>
  {
    if r.get.Some? then r.get
    else if r.head.Some? then Some(Manifest(r.head.value, 0, ""))
    else None
  }

  /** The tags that resolve to a digest, in listing order. */
  function TagsOf(tags: seq<string>, replies: seq<Reply>, digest: string): seq<string>
    requires |tags| == |replies|
  {
    if tags == [] then []
    else
      var n := |tags| - 1;
      var before := TagsOf(tags[..n], replies[..n], digest);
      if Resolve(replies[n]).Some? && Resolve(replies[n]).value.digest == digest then before + [tags[n]] else before
  }

  /** The tags that do not resolve; one is vanished only if a fresh listing lacks it. */
  function DroppedOf(tags: seq<string>, replies: seq<Reply>): seq<Dropped>
    requires |tags| == |replies|
  {
    if tags == [] then []
    else
      var n := |tags| - 1;
      var before := DroppedOf(tags[..n], replies[..n]);
      if Resolve(replies[n]).Some? then before
      else before + [Dropped(tags[n], replies[n].relisted.Some? && tags[n] !in replies[n].relisted.value)]
  }

  /** How often a tag occurs among the groups, and among the dropped tags. */
  function Grouping(groups: seq<Group>, tag: string): nat
  {
    if groups == [] then 0 else Grouping(groups[..|groups| - 1], tag) + multiset(groups[|groups| - 1].tags)[tag]
  }

  function Dropping(dropped: seq<Dropped>, tag: string): nat
  {
    if dropped == [] then 0
    else Dropping(dropped[..|dropped| - 1], tag) + if dropped[|dropped| - 1].tag == tag then 1 else 0
  }

  predicate DistinctDigests(groups: seq<Group>)
  {
    forall i, j :: 0 <= i < j < |groups| ==> groups[i].digest != groups[j].digest
  }

  /** The groups say for every digest exactly which listed tags resolve to it. */
  ghost predicate Grouped(groups: seq<Group>, tags: seq<string>, replies: seq<Reply>)
    requires |tags| == |replies|
  {
    && DistinctDigests(groups)
    && (forall i :: 0 <= i < |groups| ==>
          groups[i].tags != [] && groups[i].tags == TagsOf(tags, replies, groups[i].digest))
    && (forall i :: 0 <= i < |groups| ==> AsFirstSeen(groups[i], replies))
    && (forall i :: 0 <= i < |tags| && Resolve(replies[i]).Some? ==>
          HasDigest(groups, Resolve(replies[i]).value.digest))
  }

  /** Size and config are those of the first listed tag with that digest. */
  ghost predicate AsFirstSeen(g: Group, replies: seq<Reply>)
  {
    exists i :: FirstSeen(replies, g.digest, i) && Resolve(replies[i]).value == Manifest(g.digest, g.size, g.config)
  }

  predicate FirstSeen(replies: seq<Reply>, digest: string, i: int)
  {
    && 0 <= i < |replies| && Resolve(replies[i]).Some? && Resolve(replies[i]).value.digest == digest
    && forall j :: 0 <= j < i && Resolve(replies[j]).Some? ==> Resolve(replies[j]).value.digest != digest
  }

  ghost predicate HasDigest(groups: seq<Group>, digest: string)
  {
    exists j :: 0 <= j < |groups| && groups[j].digest == digest
  }

  lemma TagsOfNext(tags: seq<string>, replies: seq<Reply>, i: nat, digest: string)
    requires |tags| == |replies| && i < |tags|
    ensures TagsOf(tags[..i + 1], replies[..i + 1], digest) ==
            TagsOf(tags[..i], replies[..i], digest)
            + if Resolve(replies[i]).Some? && Resolve(replies[i]).value.digest == digest then [tags[i]] else []
    ensures DroppedOf(tags[..i + 1], replies[..i + 1]) ==
            DroppedOf(tags[..i], replies[..i])
            + if Resolve(replies[i]).Some? then []
              else [Dropped(tags[i], replies[i].relisted.Some? && tags[i] !in replies[i].relisted.value)]
  {
    assert tags[..i + 1][..i] == tags[..i] && replies[..i + 1][..i] == replies[..i];
  }

  lemma {:induction false} NoTagsOf(tags: seq<string>, replies: seq<Reply>, digest: string)
    requires |tags| == |replies|
    requires forall i :: 0 <= i < |tags| && Resolve(replies[i]).Some? ==> Resolve(replies[i]).value.digest != digest
    ensures TagsOf(tags, replies, digest) == []
  {
    if tags == [] {
    } else {
      NoTagsOf(tags[..|tags| - 1], replies[..|tags| - 1], digest);
    }
  }

  lemma GroupingAppend(groups: seq<Group>, g: Group, tag: string)
    ensures Grouping(groups + [g], tag) == Grouping(groups, tag) + multiset(g.tags)[tag]
  {
  }

  lemma {:induction false} GroupingUpdate(groups: seq<Group>, j: nat, g: Group, tag: string)
    requires j < |groups|
    ensures Grouping(groups[j := g], tag) ==
            Grouping(groups, tag) - multiset(groups[j].tags)[tag] + multiset(g.tags)[tag]
  {
    var n := |groups| - 1;
    if j < n {
      GroupingUpdate(groups[..n], j, g, tag);
      assert groups[j := g][..n] == groups[..n][j := g];
    } else {
      assert groups[j := g][..n] == groups[..n];
    }
  }

  /** `at` finds each digest's group. */
  ghost predicate Indexed(at: map<string, nat>, groups: seq<Group>)
  {
    && (forall d :: d in at ==> at[d] < |groups| && groups[at[d]].digest == d)
    && (forall i :: 0 <= i < |groups| ==> groups[i].digest in at)
  }

  /** Files one resolved tag under its digest. */
  method File(groups: seq<Group>, at: map<string, nat>, m: Manifest, tag: string)
      returns (groups': seq<Group>, at': map<string, nat>)
    requires Indexed(at, groups) && DistinctDigests(groups)
    ensures Indexed(at', groups') && DistinctDigests(groups')
    ensures Filed(groups, groups', m, tag)
    ensures forall t :: Grouping(groups', t) == Grouping(groups, t) + if t == tag then 1 else 0
  {
    hide Grouping, TagsOf;
    if m.digest !in at {
      var g := Group(m.digest, [tag], m.size, m.config, 0);
      NewGroupCounts(groups, g, tag);
      groups', at' := groups + [g], at[m.digest := |groups|];
      assert groups'[|groups|] == g;
    } else {
      var j := at[m.digest];
      var g := groups[j].(tags := groups[j].tags + [tag]);
      GrownGroupCounts(groups, j, g, tag);
      groups', at' := groups[j := g], at;
      assert groups'[j] == g;
    }
  }

  lemma NewGroupCounts(groups: seq<Group>, g: Group, tag: string)
    requires g.tags == [tag]
    ensures forall t :: Grouping(groups + [g], t) == Grouping(groups, t) + if t == tag then 1 else 0
  {
  }

  lemma GrownGroupCounts(groups: seq<Group>, j: nat, g: Group, tag: string)
    requires j < |groups| && g.tags == groups[j].tags + [tag]
    ensures forall t :: Grouping(groups[j := g], t) == Grouping(groups, t) + if t == tag then 1 else 0
  {
    forall t ensures Grouping(groups[j := g], t) == Grouping(groups, t) + if t == tag then 1 else 0 {
      GroupingUpdate(groups, j, g, t);
    }
  }

  /** Exactly the digest's group, perhaps new, has gained the tag. */
  ghost predicate Filed(before: seq<Group>, after: seq<Group>, m: Manifest, tag: string)
  {
    && HasDigest(after, m.digest)
    && |before| <= |after| <= |before| + 1
    && (forall i :: 0 <= i < |before| ==>
          after[i] == before[i].(tags := before[i].tags + if before[i].digest == m.digest then [tag] else []))
    && (forall i :: |before| <= i < |after| ==>
          after[i] == Group(m.digest, [tag], m.size, m.config, 0) && !HasDigest(before, m.digest))
  }

  lemma FiledKeepsGrouped(groups: seq<Group>, groups': seq<Group>, tags: seq<string>, replies: seq<Reply>, i: nat)
    requires |tags| == |replies| && i < |tags| && Resolve(replies[i]).Some?
    requires Grouped(groups, tags[..i], replies[..i]) && DistinctDigests(groups')
    requires Filed(groups, groups', Resolve(replies[i]).value, tags[i])
    ensures Grouped(groups', tags[..i + 1], replies[..i + 1])
  {
    hide TagsOf, Resolve;
    var m, seen := Resolve(replies[i]).value, replies[..i + 1];
    forall j | 0 <= j < |groups'|
      ensures groups'[j].tags != [] && groups'[j].tags == TagsOf(tags[..i + 1], seen, groups'[j].digest)
    {
      TagsOfNext(tags, replies, i, groups'[j].digest);
      if j >= |groups| {
        NewDigest(groups, tags[..i], replies[..i], m.digest);
      }
    }
    forall j | 0 <= j < |groups'| ensures AsFirstSeen(groups'[j], seen) {
      if j < |groups| {
        StillFirstSeen(groups[j], groups'[j], replies, i);
      } else {
        NewlySeen(groups, groups'[j], tags, replies, i);
      }
    }
    forall j | 0 <= j < i + 1 && Resolve(seen[j]).Some? ensures HasDigest(groups', Resolve(seen[j]).value.digest) {
      if j < i {
        assert seen[j] == replies[..i][j];
        KeepsDigest(groups, groups', m, tags[i], Resolve(replies[j]).value.digest);
      }
    }
  }

  lemma StillFirstSeen(g: Group, g': Group, replies: seq<Reply>, i: nat)
    requires i < |replies| && AsFirstSeen(g, replies[..i])
    requires g'.digest == g.digest && g'.size == g.size && g'.config == g.config
    ensures AsFirstSeen(g', replies[..i + 1])
  {
    hide Resolve;
    var before, seen := replies[..i], replies[..i + 1];
    var k :| FirstSeen(before, g.digest, k) && Resolve(before[k]).value == Manifest(g.digest, g.size, g.config);
    assert forall j :: 0 <= j < i ==> seen[j] == before[j];
    assert FirstSeen(seen, g.digest, k);
  }

  lemma NewlySeen(groups: seq<Group>, g: Group, tags: seq<string>, replies: seq<Reply>, i: nat)
    requires |tags| == |replies| && i < |tags| && Resolve(replies[i]).Some?
    requires Grouped(groups, tags[..i], replies[..i]) && !HasDigest(groups, g.digest)
    requires Resolve(replies[i]).value == Manifest(g.digest, g.size, g.config)
    ensures AsFirstSeen(g, replies[..i + 1])
  {
    hide Resolve, TagsOf;
    var before, seen := replies[..i], replies[..i + 1];
    assert forall j :: 0 <= j < i ==> seen[j] == before[j];
    assert FirstSeen(seen, g.digest, i);
  }

  lemma NewDigest(groups: seq<Group>, tags: seq<string>, replies: seq<Reply>, d: string)
    requires |tags| == |replies| && Grouped(groups, tags, replies) && !HasDigest(groups, d)
    ensures TagsOf(tags, replies, d) == []
  {
    NoTagsOf(tags, replies, d);
  }

  lemma KeepsDigest(before: seq<Group>, after: seq<Group>, m: Manifest, tag: string, d: string)
    requires Filed(before, after, m, tag) && HasDigest(before, d)
    ensures HasDigest(after, d)
  {
  }

  lemma DropKeepsGrouped(groups: seq<Group>, tags: seq<string>, replies: seq<Reply>, i: nat)
    requires |tags| == |replies| && i < |tags| && Resolve(replies[i]).None?
    requires Grouped(groups, tags[..i], replies[..i])
    ensures Grouped(groups, tags[..i + 1], replies[..i + 1])
  {
    forall j | 0 <= j < |groups| ensures groups[j].tags == TagsOf(tags[..i + 1], replies[..i + 1], groups[j].digest) {
      TagsOfNext(tags, replies, i, groups[j].digest);
    }
    var seen := replies[..i + 1];
    forall j | 0 <= j < |groups| ensures AsFirstSeen(groups[j], seen) {
      StillFirstSeen(groups[j], groups[j], replies, i);
    }
    forall j | 0 <= j < i + 1 && Resolve(seen[j]).Some? ensures HasDigest(groups, Resolve(seen[j]).value.digest) {
      assert seen[j] == replies[..i][j];
    }
  }

  lemma DroppingAppend(dropped: seq<Dropped>, d: Dropped, tag: string)
    ensures Dropping(dropped + [d], tag) == Dropping(dropped, tag) + if d.tag == tag then 1 else 0
  {
  }

  /** Every listed tag is in one group or dropped, as often as it is listed. */
  ghost predicate Partition(groups: seq<Group>, dropped: seq<Dropped>, tags: seq<string>)
  {
    forall t :: Grouping(groups, t) + Dropping(dropped, t) == multiset(tags)[t]
  }

  lemma PartitionNext(groups: seq<Group>, dropped: seq<Dropped>, tags: seq<string>, tag: string, groups': seq<Group>,
                      dropped': seq<Dropped>)
    requires Partition(groups, dropped, tags)
    requires || (dropped' == dropped
                   && forall t :: Grouping(groups', t) == Grouping(groups, t) + if t == tag then 1 else 0)
             || (groups' == groups
                   && forall t :: Dropping(dropped', t) == Dropping(dropped, t) + if t == tag then 1 else 0)
    ensures Partition(groups', dropped', tags + [tag])
  {
  }

  /** Groups the resolved tags by digest and collects the rest: every listed tag ends up
      in exactly one place. */
  method GroupTags(tags: seq<string>, replies: seq<Reply>) returns (groups: seq<Group>, dropped: seq<Dropped>)
    requires |tags| == |replies|
    ensures Grouped(groups, tags, replies) && dropped == DroppedOf(tags, replies)
    ensures Partition(groups, dropped, tags)
    ensures forall i :: 0 <= i < |groups| ==> groups[i].created == 0
  {
    hide *;
    groups, dropped := [], [];
    var at: map<string, nat> := map[];
    NothingListed(tags, replies);
    for i := 0 to |tags|
      invariant Indexed(at, groups) && Grouped(groups, tags[..i], replies[..i])
                && dropped == DroppedOf(tags[..i], replies[..i])
      invariant Partition(groups, dropped, tags[..i])
      invariant forall j :: 0 <= j < |groups| ==> groups[j].created == 0
    {
      ghost var before, lost := groups, dropped;
      GroupedHasDistinctDigests(groups, tags[..i], replies[..i]);
      TagsOfNext(tags, replies, i, "");
      assert tags[..i + 1] == tags[..i] + [tags[i]];
      var m := Resolve(replies[i]);
      if m.Some? {
        groups, at := File(groups, at, m.value, tags[i]);
        FiledKeepsGrouped(before, groups, tags, replies, i);
        FiledKeepsAges(before, groups, m.value, tags[i]);
      } else {
        // Still listed, or a listing that could not be read: unresolvable, not gone.
        var gone := replies[i].relisted.Some? && tags[i] !in replies[i].relisted.value;
        dropped := dropped + [Dropped(tags[i], gone)];
        forall t ensures Dropping(dropped, t) == Dropping(lost, t) + if t == tags[i] then 1 else 0 {
          DroppingAppend(lost, Dropped(tags[i], gone), t);
        }
        DropKeepsGrouped(groups, tags, replies, i);
      }
      PartitionNext(before, lost, tags[..i], tags[i], groups, dropped);
    }
    assert tags[..|tags|] == tags && replies[..|tags|] == replies;
  }

  lemma FiledKeepsAges(before: seq<Group>, after: seq<Group>, m: Manifest, tag: string)
    requires Filed(before, after, m, tag) && forall j :: 0 <= j < |before| ==> before[j].created == 0
    ensures forall j :: 0 <= j < |after| ==> after[j].created == 0
  {
  }

  lemma NothingListed(tags: seq<string>, replies: seq<Reply>)
    requires |tags| == |replies|
    ensures Indexed(map[], []) && Grouped([], tags[..0], replies[..0]) && DroppedOf(tags[..0], replies[..0]) == []
    ensures Partition([], [], tags[..0])
  {
  }

  lemma GroupedHasDistinctDigests(groups: seq<Group>, tags: seq<string>, replies: seq<Reply>)
    requires |tags| == |replies| && Grouped(groups, tags, replies)
    ensures DistinctDigests(groups)
  {
  }

  // ----- Ages -----

  predicate Newer(a: Group, b: Group)
  {
    a.created >= b.created
  }

  /** An image without a config, or whose config cannot be read, has age zero. */
  ghost predicate Aged(g: Group, created: string -> Option<int>)
  {
    match created(g.config)
    case Some(t) => g.created == if g.config == "" then 0 else t
    case None => g.created == 0
  }

  method ResolveCreated(groups: seq<Group>, created: string -> Option<int>) returns (out: seq<Group>)
    requires forall i :: 0 <= i < |groups| ==> groups[i].created == 0
    ensures |out| == |groups|
    ensures forall i :: 0 <= i < |groups| ==> out[i] == groups[i].(created := out[i].created) && Aged(out[i], created)
  {
    out := [];
    for i := 0 to |groups|
      invariant |out| == i
      invariant forall j :: 0 <= j < i ==> out[j] == groups[j].(created := out[j].created) && Aged(out[j], created)
    {
      var g := groups[i];
      if g.config != "" && created(g.config).Some? {
        g := g.(created := created(g.config).value);
      }
      out := out + [g];
    }
  }

  lemma {:induction false} SameTagsGrouping(a: seq<Group>, b: seq<Group>, tag: string)
    requires |a| == |b| && forall i :: 0 <= i < |a| ==> a[i].tags == b[i].tags
    ensures Grouping(a, tag) == Grouping(b, tag)
  {
    if a == [] {
    } else {
      SameTagsGrouping(a[..|a| - 1], b[..|a| - 1], tag);
    }
  }

  lemma {:induction false} GroupingCons(g: Group, rest: seq<Group>, tag: string)
    ensures Grouping([g] + rest, tag) == multiset(g.tags)[tag] + Grouping(rest, tag)
  {
    var all := [g] + rest;
    if rest == [] {
      assert all == [] + [g];
      GroupingAppend([], g, tag);
    } else {
      var n := |rest| - 1;
      GroupingCons(g, rest[..n], tag);
      assert all == ([g] + rest[..n]) + [rest[n]];
      GroupingAppend([g] + rest[..n], rest[n], tag);
    }
  }

  lemma {:induction false} GroupingInsert(g: Group, s: seq<Group>, tag: string)
    ensures Grouping(Insert(g, s, Newer), tag) == multiset(g.tags)[tag] + Grouping(s, tag)
  {
    GroupingCons(g, s, tag);
    if s != [] && !Newer(g, s[0]) {
      GroupingInsert(g, s[1..], tag);
      GroupingCons(s[0], Insert(g, s[1..], Newer), tag);
      GroupingCons(s[0], s[1..], tag);
      assert s == [s[0]] + s[1..];
    }
  }

  lemma {:induction false} GroupingSort(s: seq<Group>, tag: string)
    ensures Grouping(Sort(s, Newer), tag) == Grouping(s, tag)
  {
    if s == [] {
    } else {
      GroupingSort(s[1..], tag);
      GroupingInsert(s[0], Sort(s[1..], Newer), tag);
      GroupingCons(s[0], s[1..], tag);
      assert s == [s[0]] + s[1..];
    }
  }

  lemma NewerIsPreorder()
    ensures IsPreorder(Newer)
  {
  }

  /** Sorting regroups nothing. */
  lemma SortKeepsGrouped(groups: seq<Group>, tags: seq<string>, replies: seq<Reply>)
    requires |tags| == |replies| && Grouped(groups, tags, replies)
    ensures Grouped(Sort(groups, Newer), tags, replies)
  {
    hide TagsOf, Resolve, Sort;
    var out := Sort(groups, Newer);
    SortMembers(groups, Newer);
    SortDistinct(groups, Newer);
    hide AsFirstSeen;
    forall i | 0 <= i < |out|
      ensures out[i].tags != [] && out[i].tags == TagsOf(tags, replies, out[i].digest) && AsFirstSeen(out[i], replies)
    {
      assert out[i] in groups;
    }
    forall i, j | 0 <= i < j < |out| ensures out[i].digest != out[j].digest {
      assert out[i] in groups && out[j] in groups && out[i] != out[j];
    }
    forall d | HasDigest(groups, d) ensures HasDigest(out, d) {
      var j :| 0 <= j < |groups| && groups[j].digest == d;
      assert groups[j] in out;
    }
  }

  lemma SameGroups(a: seq<Group>, b: seq<Group>, tags: seq<string>, replies: seq<Reply>)
    requires |tags| == |replies| && Grouped(a, tags, replies)
    requires |a| == |b| && forall i :: 0 <= i < |a| ==> b[i] == a[i].(created := b[i].created)
    ensures Grouped(b, tags, replies)
  {
  }

  /** The listing is partitioned: each listed tag is in the one group of its digest or is
      dropped, digests are distinct, no group is empty, the newest image comes first, and
      a dropped tag counts as vanished exactly when a fresh listing was read and lacks it. */
  method ResolveTags(tags: seq<string>, replies: seq<Reply>, created: string -> Option<int>)
      returns (groups: seq<Group>, dropped: seq<Dropped>)
    requires |tags| == |replies|
    ensures Grouped(groups, tags, replies) && dropped == DroppedOf(tags, replies)
    ensures Partition(groups, dropped, tags)
    ensures forall i, j :: 0 <= i < j < |groups| ==> groups[i].created >= groups[j].created
    ensures forall i :: 0 <= i < |groups| ==> Aged(groups[i], created)
  {
    var grouped;
    grouped, dropped := GroupTags(tags, replies);
    var aged := ResolveCreated(grouped, created);
    hide Grouping, Dropping, TagsOf, Resolve, Sort, Insert, Grouped, DroppedOf;
    SameGroups(grouped, aged, tags, replies);
    groups := Sort(aged, Newer);
    NewerIsPreorder();
    SortSorted(aged, Newer);
    SortMembers(aged, Newer);
    SortKeepsGrouped(aged, tags, replies);
    forall i | 0 <= i < |groups| ensures Aged(groups[i], created) {
      assert groups[i] in aged;
    }
    forall t ensures Grouping(groups, t) == Grouping(grouped, t) {
      GroupingSort(aged, t);
      SameTagsGrouping(grouped, aged, t);
    }
  }

  // ----- What resolving means -----

  /** The manifest answers, or else a bare digest does, and then size and config are unknown. */
  ghost predicate Answers(r: Reply, digest: string, size: nat, config: string)
  {
    match r.get
    case Some(m) => m.digest == digest && m.size == size && m.config == config
    case None => r.head == Some(digest) && size == 0 && config == ""
  }

  ghost predicate AnswersWith(r: Reply, digest: string)
  {
    exists size: nat, config :: Answers(r, digest, size, config)
  }

  lemma ResolveIff(r: Reply, m: Manifest)
    ensures Resolve(r) == Some(m) <==> Answers(r, m.digest, m.size, m.config)
    ensures (Resolve(r).Some? && Resolve(r).value.digest == m.digest) <==> AnswersWith(r, m.digest)
    ensures Resolve(r).None? <==> r.get.None? && r.head.None?
  {
    if Resolve(r).Some? {
      var n := Resolve(r).value;
      assert Answers(r, n.digest, n.size, n.config);
    }
  }

  /** A tag is in a digest's group exactly when one of its requests answered with it. */
  lemma {:induction false} TagsOfIff(tags: seq<string>, replies: seq<Reply>, digest: string, tag: string)
    requires |tags| == |replies|
    ensures tag in TagsOf(tags, replies, digest) <==>
            exists i :: 0 <= i < |tags| && tags[i] == tag && AnswersWith(replies[i], digest)
  {
    hide Resolve, AnswersWith;
    if tags == [] {
    } else {
      var n := |tags| - 1;
      TagsOfIff(tags[..n], replies[..n], digest, tag);
      ResolveIff(replies[n], Manifest(digest, 0, ""));
      assert forall i :: 0 <= i < n ==> tags[..n][i] == tags[i] && replies[..n][i] == replies[i];
    }
  }

  lemma {:induction false} TagsOfOrder(a: seq<string>, ra: seq<Reply>, b: seq<string>, rb: seq<Reply>, digest: string)
    requires |a| == |ra| && |b| == |rb|
    ensures TagsOf(a + b, ra + rb, digest) == TagsOf(a, ra, digest) + TagsOf(b, rb, digest)
  {
    hide Resolve;
    var all, replies := a + b, ra + rb;
    if b == [] {
      assert all == a && replies == ra;
    } else {
      var n := |b| - 1;
      TagsOfOrder(a, ra, b[..n], rb[..n], digest);
      assert all[..|a| + n] == a + b[..n] && replies[..|a| + n] == ra + rb[..n];
      assert all[|a| + n] == b[n] && replies[|a| + n] == rb[n];
    }
  }

  lemma {:induction false} DroppedOfOrder(a: seq<string>, ra: seq<Reply>, b: seq<string>, rb: seq<Reply>)
    requires |a| == |ra| && |b| == |rb|
    ensures DroppedOf(a + b, ra + rb) == DroppedOf(a, ra) + DroppedOf(b, rb)
  {
    hide Resolve;
    var all, replies := a + b, ra + rb;
    if b == [] {
      assert all == a && replies == ra;
    } else {
      var n := |b| - 1;
      DroppedOfOrder(a, ra, b[..n], rb[..n]);
      assert all[..|a| + n] == a + b[..n] && replies[..|a| + n] == ra + rb[..n];
      assert all[|a| + n] == b[n] && replies[|a| + n] == rb[n];
    }
  }

  /** Groups and dropped tags follow the listing's order. */
  lemma ListingOrder(a: seq<string>, ra: seq<Reply>, b: seq<string>, rb: seq<Reply>, digest: string)
    requires |a| == |ra| && |b| == |rb|
    ensures TagsOf(a + b, ra + rb, digest) == TagsOf(a, ra, digest) + TagsOf(b, rb, digest)
    ensures DroppedOf(a + b, ra + rb) == DroppedOf(a, ra) + DroppedOf(b, rb)
  {
    hide *;
    TagsOfOrder(a, ra, b, rb, digest);
    DroppedOfOrder(a, ra, b, rb);
  }

  /** Neither request answered; it is gone if a re-listing that was read lacks it. */
  ghost predicate Lost(reply: Reply, tag: string, vanished: bool)
  {
    && reply.get.None? && reply.head.None?
    && (vanished <==> reply.relisted.Some? && tag !in reply.relisted.value)
  }

  /** A tag is dropped exactly when neither request answered, and reported vanished exactly
      when besides a re-listing that was read does not contain it. */
  lemma {:induction false} VanishedIff(tags: seq<string>, replies: seq<Reply>, tag: string, vanished: bool)
    requires |tags| == |replies|
    ensures Dropped(tag, vanished) in DroppedOf(tags, replies) <==>
            exists i :: 0 <= i < |tags| && tags[i] == tag && Lost(replies[i], tag, vanished)
  {
    if tags == [] {
    } else {
      var n := |tags| - 1;
      VanishedIff(tags[..n], replies[..n], tag, vanished);
      ResolveIff(replies[n], Manifest("", 0, ""));
      assert forall i :: 0 <= i < n ==> tags[..n][i] == tags[i] && replies[..n][i] == replies[i];
      hide Resolve;
    }
  }
}
