/** Does a restored backup verify? The archive is unpacked into a tree with its hard-link
    classes, and the volume is exported again by a walk over the tree; the manifest of
    that export is compared with the recorded one. */
module TarReexport {
  import opened Paths
  import opened Manifests
  import opened TarFilter
  import opened TarMeaning
  import opened TarAccounting

  /** What a volume holds: each name's content, and which names share a file, by the name
      the file was first given. */
  datatype Tree = Tree(nodes: map<string, Node>, class_: map<string, string>)

  function ClassOf(classes: map<string, string>, e: Entry): string
  {
    if e.flag == LINK && Clean(e.link) in classes then classes[Clean(e.link)] else e.Path()
  }

  function Classes(es: seq<Entry>): map<string, string>
  {
    if es == [] then map[]
    else
      var before := Classes(es[..|es| - 1]);
      before[es[|es| - 1].Path() := ClassOf(before, es[|es| - 1])]
  }

  function TreeOf(es: seq<Entry>): Tree
  {
    Tree(Unpack(es), Classes(es))
  }

  /** How the exporter goes about it: the order it visits names in, and how it writes a
      name it links to. */
  datatype Walk = Walk(rank: string -> nat, spell: string -> string)

  /** The name under which the walk comes first upon the file that `k` names. */
  ghost predicate Leads(t: Tree, w: Walk, p: string, k: string)
  {
    && k in t.class_ && p in t.class_ && t.class_[p] == t.class_[k]
    && forall q :: q in t.class_ && t.class_[q] == t.class_[k] ==> w.rank(p) <= w.rank(q)
  }

  function NodeInfo(n: Node): FileInfo
  {
    match n
    case File(body) => FileInfo(REG, |body|, body, "")
    case Other(flag, link) => FileInfo(flag, 0, [], if flag == SYMLINK then link else "")
    case Dangling => FileInfo(LINK, 0, [], "")
  }

  /** A directory the import had to invent, because something is in it. */
  ghost predicate Invented(t: Tree, dir: string)
  {
    !ExcludePath(dir) && dir !in t.nodes && exists k :: k in t.nodes && IsAncestor(dir, k)
  }

  /** `m` is the manifest of the walk's export: the first name of a file carries it, and
      every other one is a hard link to that. */
  ghost predicate IsExport(t: Tree, w: Walk, m: Manifest)
  {
    && (forall k :: k in m <==> (k in t.nodes && !ExcludePath(k)) || Invented(t, k))
    && (forall k, p :: k in m && k in t.nodes && Leads(t, w, p, k) ==>
          m[k] == if p == k then NodeInfo(t.nodes[k]) else FileInfo(LINK, 0, [], w.spell(p)))
    && (forall k :: k in m && k !in t.nodes ==> m[k] == FileInfo(DIR, 0, [], ""))
  }

  ghost predicate InOrder(es: seq<Entry>, w: Walk)
  {
    forall i, j :: 0 <= i < j < |es| ==> w.rank(es[i].Path()) < w.rank(es[j].Path())
  }

  // ----- Hard-link classes -----

  /** The class of an entry is named after an entry that is no link, the entry itself or
      an earlier one. */
  ghost predicate RootedAt(es: seq<Entry>, i: nat, classes: map<string, string>, r: nat)
    requires i < |es|
  {
    && r <= i && es[r].flag != LINK && (r == i <==> es[i].flag != LINK)
    && es[i].Path() in classes && classes[es[i].Path()] == es[r].Path()
  }

  ghost predicate HasRoot(es: seq<Entry>, i: nat, classes: map<string, string>)
    requires i < |es|
  {
    exists r :: RootedAt(es, i, classes, r)
  }

  ghost predicate Rooted(es: seq<Entry>, n: nat, classes: map<string, string>)
    requires n <= |es|
  {
    && (forall k :: k in classes <==> Holds(es, n, k))
    && (forall i :: 0 <= i < n ==> HasRoot(es, i, classes))
  }

  lemma SameEntry(es: seq<Entry>, i: nat, j: nat)
    requires DistinctPaths(es) && i < |es| && j < |es| && es[i].Path() == es[j].Path()
    ensures i == j
  {
  }

  lemma RootStays(es: seq<Entry>, i: nat, classes: map<string, string>, k: string, c: string)
    requires i < |es| && HasRoot(es, i, classes) && es[i].Path() != k
    ensures HasRoot(es, i, classes[k := c])
  {
    hide Clean;
    var r :| RootedAt(es, i, classes, r);
    assert RootedAt(es, i, classes[k := c], r);
  }

  lemma NewRoot(es: seq<Entry>, n: nat, classes: map<string, string>)
    requires LinksPointBack(es) && n < |es| && Rooted(es, n, classes)
    ensures HasRoot(es, n, classes[es[n].Path() := ClassOf(classes, es[n])])
  {
    var e, target := es[n], Clean(es[n].link);
    hide Clean, HasRoot;
    var more := classes[e.Path() := ClassOf(classes, e)];
    if e.flag == LINK {
      assert Holds(es, n, target);
      var t :| 0 <= t < n && es[t].Path() == target;
      assert HasRoot(es, t, classes);
      LinkRoot(es, n, classes, t);
    } else {
      assert RootedAt(es, n, more, n);
      IsRoot(es, n, more, n);
    }
  }

  lemma IsRoot(es: seq<Entry>, i: nat, classes: map<string, string>, r: nat)
    requires i < |es| && RootedAt(es, i, classes, r)
    ensures HasRoot(es, i, classes)
  {
  }

  lemma LinkRoot(es: seq<Entry>, n: nat, classes: map<string, string>, t: nat)
    requires t < n < |es| && es[n].flag == LINK && es[t].Path() == Clean(es[n].link) && HasRoot(es, t, classes)
    ensures HasRoot(es, n, classes[es[n].Path() := ClassOf(classes, es[n])])
  {
    hide Clean;
    var r :| RootedAt(es, t, classes, r);
    assert RootedAt(es, n, classes[es[n].Path() := ClassOf(classes, es[n])], r);
  }

  lemma RootedNext(es: seq<Entry>, n: nat, classes: map<string, string>)
    requires DistinctPaths(es) && LinksPointBack(es) && n < |es| && Rooted(es, n, classes)
    ensures Rooted(es, n + 1, classes[es[n].Path() := ClassOf(classes, es[n])])
  {
    NewRoot(es, n, classes);
    var k, c := es[n].Path(), ClassOf(classes, es[n]);
    var more := classes[k := c];
    hide Clean, HasRoot, ClassOf, LinksPointBack;
    forall x ensures Holds(es, n + 1, x) <==> Holds(es, n, x) || x == k {
      assert es[n].Path() == k;
    }
    forall i | 0 <= i < n ensures HasRoot(es, i, more) {
      RootStays(es, i, classes, k, c);
    }
  }

  lemma {:induction false} ClassesRooted(es: seq<Entry>, n: nat)
    requires DistinctPaths(es) && LinksPointBack(es) && n <= |es|
    ensures Rooted(es, n, Classes(es[..n]))
  {
    if n > 0 {
      hide Rooted, Clean;
      ClassesRooted(es, n - 1);
      RootedNext(es, n - 1, Classes(es[..n - 1]));
      assert es[..n][..n - 1] == es[..n - 1];
    } else {
      assert es[..0] == [];
    }
  }

  /** Two entries of one class have one root. */
  lemma OneRoot(es: seq<Entry>, i: nat, r: nat, j: nat) returns (rj: nat)
    requires DistinctPaths(es) && Rooted(es, |es|, Classes(es)) && i < |es| && j < |es|
    requires RootedAt(es, i, Classes(es), r)
    requires es[j].Path() in Classes(es) && Classes(es)[es[j].Path()] == Classes(es)[es[i].Path()]
    ensures rj == r && RootedAt(es, j, Classes(es), r)
  {
    hide Clean, Classes, DistinctPaths;
    assert HasRoot(es, j, Classes(es));
    rj :| RootedAt(es, j, Classes(es), rj);
    SameEntry(es, rj, r);
  }

  /** In an archive in walk order the walk comes first upon a file under the very name the
      archive carries it by. */
  lemma LeaderIsRoot(es: seq<Entry>, w: Walk, i: nat, r: nat)
    requires DistinctPaths(es) && InOrder(es, w) && Rooted(es, |es|, Classes(es))
    requires i < |es| && RootedAt(es, i, Classes(es), r)
    ensures forall p :: Leads(TreeOf(es), w, p, es[i].Path()) <==> p == es[r].Path()
  {
    hide Clean, Classes, Unpack, DistinctPaths;
    var t, k, root := TreeOf(es), es[i].Path(), es[r].Path();
    forall q | q in t.class_ && t.class_[q] == t.class_[k]
      ensures w.rank(root) <= w.rank(q) && (w.rank(q) <= w.rank(root) ==> q == root)
    {
      assert Holds(es, |es|, q);
      var j :| 0 <= j < |es| && es[j].Path() == q;
      var _ := OneRoot(es, i, r, j);
    }
    RootIsItsOwn(es, i, r);
  }

  lemma RootIsItsOwn(es: seq<Entry>, i: nat, r: nat)
    requires Rooted(es, |es|, Classes(es)) && i < |es| && RootedAt(es, i, Classes(es), r)
    ensures es[r].Path() in Classes(es) && Classes(es)[es[r].Path()] == es[r].Path()
  {
    hide Clean, Classes;
    assert HasRoot(es, r, Classes(es));
    var rr :| RootedAt(es, r, Classes(es), rr);
  }

  // ----- One archive and its export -----

  lemma {:induction false} Recorded(es: seq<Entry>, n: nat, i: nat)
    requires DistinctPaths(es) && i < n <= |es|
    ensures es[i].Path() in Unpack(es[..n]) && Unpack(es[..n])[es[i].Path()] == NodeOf(Unpack(es[..i]), es[i])
    ensures !ExcludePath(es[i].Path()) ==>
            es[i].Path() in BuildManifest(es[..n]) && BuildManifest(es[..n])[es[i].Path()] == Info(es[i])
    decreases n
  {
    hide Clean, ExcludePath, NodeOf, Info;
    assert es[..n][..n - 1] == es[..n - 1];
    if i < n - 1 {
      Recorded(es, n - 1, i);
      assert es[i].Path() != es[n - 1].Path();
    }
  }

  /** Each name holds what its entry says, and its fingerprint is the entry's. */
  lemma RecordedWhole(es: seq<Entry>, i: nat)
    requires DistinctPaths(es) && i < |es|
    ensures es[i].Path() in Unpack(es) && (es[i].flag != LINK ==> NodeInfo(Unpack(es)[es[i].Path()]) == Info(es[i]))
    ensures !ExcludePath(es[i].Path()) ==>
            es[i].Path() in BuildManifest(es) && BuildManifest(es)[es[i].Path()] == Info(es[i])
  {
    hide Clean, ExcludePath, Unpack, BuildManifest, DistinctPaths;
    Recorded(es, |es|, i);
    assert es[..|es|] == es;
  }

  lemma WholeRooted(es: seq<Entry>)
    requires DistinctPaths(es) && LinksPointBack(es)
    ensures Rooted(es, |es|, Classes(es))
    ensures forall i :: 0 <= i < |es| ==> es[i].Path() in Classes(es)
  {
    hide Clean, Classes, DistinctPaths, LinksPointBack;
    ClassesRooted(es, |es|);
    assert es[..|es|] == es;
    forall i | 0 <= i < |es| ensures es[i].Path() in Classes(es) {
      assert Holds(es, |es|, es[i].Path());
    }
  }

  /** The link text the export writes for an entry that is a link. */
  ghost predicate WritesBack(es: seq<Entry>, w: Walk, i: nat)
    requires i < |es| && es[i].Path() in Classes(es)
  {
    es[i].flag == LINK && !ExcludePath(es[i].Path()) ==> es[i].link == w.spell(Classes(es)[es[i].Path()])
  }

  /** What the archive recorded of an entry, and what its export shows. */
  lemma ExportedAs(es: seq<Entry>, w: Walk, m: Manifest, i: nat, r: nat)
    requires DistinctPaths(es) && InOrder(es, w) && IsExport(TreeOf(es), w, m) && Rooted(es, |es|, Classes(es))
    requires i < |es| && !ExcludePath(es[i].Path()) && RootedAt(es, i, Classes(es), r)
    ensures es[i].Path() in m
    ensures m[es[i].Path()] == if r == i then Info(es[i]) else FileInfo(LINK, 0, [], w.spell(es[r].Path()))
  {
    hide Clean, ExcludePath, Classes, Unpack, BuildManifest, Leads, Invented, DistinctPaths, InOrder, Rooted,
         NodeInfo, Info;
    RecordedWhole(es, i);
    LeaderIsRoot(es, w, i, r);
    if r != i && es[r].Path() == es[i].Path() {
      SameEntry(es, r, i);
    }
    assert Leads(TreeOf(es), w, es[r].Path(), es[i].Path());
  }

  lemma EntryVerifiesIff(es: seq<Entry>, w: Walk, m: Manifest, i: nat)
    requires DistinctPaths(es) && InOrder(es, w) && IsExport(TreeOf(es), w, m) && Rooted(es, |es|, Classes(es))
    requires i < |es| && !ExcludePath(es[i].Path())
    ensures es[i].Path() in Classes(es) && es[i].Path() in BuildManifest(es) && es[i].Path() in m
    ensures BuildManifest(es)[es[i].Path()] == m[es[i].Path()] <==> WritesBack(es, w, i)
  {
    hide Clean, ExcludePath, Classes, Unpack, BuildManifest, DistinctPaths, InOrder, IsExport, Holds;
    RecordedWhole(es, i);
    assert HasRoot(es, i, Classes(es));
    var r :| RootedAt(es, i, Classes(es), r);
    ExportedAs(es, w, m, i, r);
  }

  lemma ExportKeys(es: seq<Entry>, w: Walk, m: Manifest)
    requires IsExport(TreeOf(es), w, m)
    ensures forall k :: k in m <==> k in BuildManifest(es) || Invented(TreeOf(es), k)
    ensures forall k :: Invented(TreeOf(es), k) ==> k !in BuildManifest(es)
    ensures forall k :: k in BuildManifest(es) ==> exists i :: 0 <= i < |es| && es[i].Path() == k && !ExcludePath(k)
  {
    BuildManifestKeys(es);
    UnpackKeys(es);
    hide Clean, ExcludePath, Classes, Unpack, BuildManifest, Leads;
    forall k ensures k in BuildManifest(es) <==> k in Unpack(es) && !ExcludePath(k) {
      if Holds(es, |es|, k) {
        var i :| 0 <= i < |es| && es[i].Path() == k;
      }
      if i :| 0 <= i < |es| && es[i].Path() == k {
        assert Holds(es, |es|, k);
      }
    }
  }

  /** The export of an imported archive verifies exactly when the archive listed every
      directory that counts and every link in it is written as the export writes it. */
  lemma ExportVerifiesIff(es: seq<Entry>, w: Walk, m: Manifest)
    requires DistinctPaths(es) && LinksPointBack(es) && InOrder(es, w) && IsExport(TreeOf(es), w, m)
    ensures forall i :: 0 <= i < |es| ==> es[i].Path() in Classes(es)
    ensures Strip(BuildManifest(es)) == m <==>
            (forall dir :: !Invented(TreeOf(es), dir)) && forall i :: 0 <= i < |es| ==> WritesBack(es, w, i)
  {
    hide Clean, ExcludePath, Classes, Unpack, BuildManifest, DistinctPaths, InOrder, Rooted, IsExport, LinksPointBack,
         Strip, Invented;
    WholeRooted(es);
    BuildManifestKeys(es);
    ExportKeys(es, w, m);
    forall i | 0 <= i < |es| && !ExcludePath(es[i].Path())
      ensures es[i].Path() in BuildManifest(es) && es[i].Path() in m
      ensures BuildManifest(es)[es[i].Path()] == m[es[i].Path()] <==> WritesBack(es, w, i)
    {
      EntryVerifiesIff(es, w, m, i);
    }
    var b := BuildManifest(es);
    if (forall dir :: !Invented(TreeOf(es), dir)) && (forall i :: 0 <= i < |es| ==> WritesBack(es, w, i)) {
      forall k | k in b ensures b[k] == m[k] {
        var i :| 0 <= i < |es| && es[i].Path() == k && !ExcludePath(k);
        assert WritesBack(es, w, i);
      }
      assert b.Keys == m.Keys;
      assert b == m;
    }
    if b == m {
      forall dir ensures !Invented(TreeOf(es), dir) {
      }
    }
  }

  // ----- A filtered backup -----

  /** Exporters write names that clean to what they name. */
  ghost predicate Spells(w: Walk)
  {
    forall p :: Clean(p) == p ==> Clean(w.spell(p)) == p
  }

  /** An export writes each link with the spelling of the name of the file it carries. */
  ghost predicate Spelled(es: seq<Entry>, w: Walk)
  {
    forall j :: 0 <= j < |es| && es[j].flag == LINK ==>
      exists i :: 0 <= i < j && es[i].flag != LINK && es[j].link == w.spell(es[i].Path())
  }

  /** A surviving link whose target was dropped and has another name by then. */
  predicate Redirected(r: Rules, es: seq<Entry>, j: nat)
    requires j < |es|
  {
    !Matches(r, es[j]) && es[j].flag == LINK && Clean(es[j].link) in Run(r, es[..j]).state.promoted
  }

  function NewTarget(r: Rules, es: seq<Entry>, j: nat): string
    requires j < |es| && Redirected(r, es, j)
  {
    Run(r, es[..j]).state.promoted[Clean(es[j].link)]
  }

  /** What the filter makes of an entry it does not drop. */
  ghost predicate From(r: Rules, es: seq<Entry>, j: nat, e: Entry)
    requires j < |es|
  {
    var d := Decide(r, Run(r, es[..j]).state, es[j]);
    !d.Drop? && d.entry == e
  }

  lemma FromSame(r: Rules, es: seq<Entry>, j: nat, e: Entry)
    requires j < |es| && From(r, es, j, e)
    ensures e.Path() == es[j].Path() && (e.flag == LINK ==> es[j].flag == LINK && !Matches(r, es[j]))
    ensures e.flag == LINK ==> e.link == if Redirected(r, es, j) then NewTarget(r, es, j) else es[j].link
    ensures es[j].flag == LINK && !Redirected(r, es, j) && e.flag == LINK ==>
            Clean(es[j].link) !in Run(r, es[..j]).state.dropped
    ensures es[j].flag != LINK ==> e == es[j]
    ensures Redirected(r, es, j) ==> e.flag == LINK
  {
    hide Clean, Matches, Run;
  }

  ghost predicate Comes(r: Rules, es: seq<Entry>, n: nat, e: Entry)
    requires n <= |es|
  {
    exists j :: 0 <= j < n && From(r, es, j, e)
  }

  /** The output is what the filter makes of the entries, and nothing else. */
  lemma {:induction false} Origins(r: Rules, es: seq<Entry>, n: nat)
    requires n <= |es|
    ensures forall e :: e in Run(r, es[..n]).out <==> Comes(r, es, n, e)
  {
    hide Clean, Matches, Decide, After;
    if n > 0 {
      Origins(r, es, n - 1);
      RunNext(r, es, n - 1);
      var p, d := Run(r, es[..n - 1]), Decide(r, Run(r, es[..n - 1]).state, es[n - 1]);
      hide Run;
      forall e ensures Comes(r, es, n, e) <==> Comes(r, es, n - 1, e) || (!d.Drop? && d.entry == e) {
        if !d.Drop? && d.entry == e {
          assert From(r, es, n - 1, e);
        }
      }
    } else {
      assert es[..0] == [];
    }
  }

  lemma {:induction false} FilterKeepsOrder(r: Rules, es: seq<Entry>, w: Walk, n: nat)
    requires n <= |es| && InOrder(es, w)
    ensures InOrder(Run(r, es[..n]).out, w)
  {
    hide Clean, Matches, Decide, After;
    if n > 0 {
      FilterKeepsOrder(r, es, w, n - 1);
      Origins(r, es, n - 1);
      RunNext(r, es, n - 1);
      var p, d := Run(r, es[..n - 1]), Decide(r, Run(r, es[..n - 1]).state, es[n - 1]);
      hide Run;
      if !d.Drop? {
        FromSame(r, es, n - 1, d.entry);
        forall i | 0 <= i < |p.out| ensures w.rank(p.out[i].Path()) < w.rank(d.entry.Path()) {
          assert p.out[i] in p.out;
          var j :| 0 <= j < n - 1 && From(r, es, j, p.out[i]);
          FromSame(r, es, j, p.out[i]);
        }
      }
    } else {
      assert es[..0] == [];
    }
  }

  ghost predicate Carried(out: seq<Entry>, path: string)
  {
    exists e :: e in out && e.flag == REG && e.Path() == path
  }

  /** A dropped file's new name is one the output carries it by. */
  lemma {:induction false} PromotedIsCarried(r: Rules, es: seq<Entry>, n: nat)
    requires n <= |es|
    ensures forall t :: t in Run(r, es[..n]).state.promoted ==>
            Carried(Run(r, es[..n]).out, Run(r, es[..n]).state.promoted[t])
  {
    hide Clean, Matches;
    if n > 0 {
      PromotedIsCarried(r, es, n - 1);
      RunNext(r, es, n - 1);
      var p, p' := Run(r, es[..n - 1]), Run(r, es[..n]);
      var d := Decide(r, p.state, es[n - 1]);
      hide Run;
      forall path | Carried(p.out, path) ensures Carried(p'.out, path) {
        var e :| e in p.out && e.flag == REG && e.Path() == path;
        assert e in p'.out;
      }
      if d.Promote? {
        assert d.entry in p'.out && d.entry.flag == REG && d.entry.Path() == es[n - 1].Path();
      }
    } else {
      assert es[..0] == [];
    }
  }

  lemma {:induction false} OutputGrows(r: Rules, es: seq<Entry>, i: nat, n: nat)
    requires i <= n <= |es|
    ensures forall e :: e in Run(r, es[..i]).out ==> e in Run(r, es[..n]).out
    ensures Run(r, es[..i]).state.dropped <= Run(r, es[..n]).state.dropped
    decreases n
  {
    hide Clean, Matches;
    if i < n {
      OutputGrows(r, es, i, n - 1);
      RunNext(r, es, n - 1);
      hide Run;
    }
  }

  /** An entry that is no link is either dropped for good or in the output as it was. */
  lemma PlainSurvives(r: Rules, es: seq<Entry>, i: nat, j: nat)
    requires i < j < |es| && es[i].flag != LINK && es[i].Path() !in Run(r, es[..j]).state.dropped
    ensures From(r, es, i, es[i])
  {
    RunNext(r, es, i);
    OutputGrows(r, es, i + 1, j);
    hide Clean, Matches, Run;
  }

  // ----- Links of the output -----

  lemma {:induction false} ClassStays(es: seq<Entry>, n: nat, i: nat)
    requires DistinctPaths(es) && i < n <= |es|
    ensures es[i].Path() in Classes(es[..n]) && Classes(es[..n])[es[i].Path()] == ClassOf(Classes(es[..i]), es[i])
    decreases n
  {
    hide Clean, ClassOf;
    assert es[..n][..n - 1] == es[..n - 1];
    if i < n - 1 {
      ClassStays(es, n - 1, i);
      assert es[i].Path() != es[n - 1].Path();
    }
  }

  lemma TargetComesFirst(es: seq<Entry>, i: nat, t: nat)
    requires DistinctPaths(es) && LinksPointBack(es) && i < |es| && t < |es|
    requires es[i].flag == LINK && es[t].Path() == Clean(es[i].link)
    ensures t < i
  {
    hide Clean, DistinctPaths;
    assert Holds(es, i, Clean(es[i].link));
    var x :| 0 <= x < i && es[x].Path() == Clean(es[i].link);
    SameEntry(es, x, t);
  }

  /** A link straight to a file is in that file's class. */
  lemma ClassOfLink(es: seq<Entry>, i: nat, t: nat)
    requires DistinctPaths(es) && LinksPointBack(es) && i < |es| && t < |es|
    requires es[i].flag == LINK && es[t].flag != LINK && es[t].Path() == Clean(es[i].link)
    ensures es[i].Path() in Classes(es) && Classes(es)[es[i].Path()] == Clean(es[i].link)
  {
    hide Clean, Classes, DistinctPaths, LinksPointBack;
    TargetComesFirst(es, i, t);
    ClassStays(es, i, t);
    ClassStays(es, |es|, i);
    assert es[..|es|] == es;
  }

  /** Every link of the output leads straight to a file the output carries, and is spelled
      as the export spells it unless it was redirected. */
  lemma OutputLink(r: Rules, es: seq<Entry>, w: Walk, j: nat, e: Entry) returns (target: Entry)
    requires Spelled(es, w) && Spells(w)
    requires j < |es| && From(r, es, j, e) && e.flag == LINK
    ensures target in Run(r, es).out && target.flag != LINK && target.Path() == Clean(e.link)
    ensures e.link == if Redirected(r, es, j) then target.Path() else w.spell(target.Path())
  {
    FromSame(r, es, j, e);
    OutputGrows(r, es, j, |es|);
    assert es[..|es|] == es;
    hide Run, Matches, From, Decide, After;
    if Redirected(r, es, j) {
      PromotedIsCarried(r, es, j);
      target :| target in Run(r, es[..j]).out && target.flag == REG && target.Path() == e.link;
      CleanIdempotent(target.name);
    } else {
      var i :| 0 <= i < j && es[i].flag != LINK && es[j].link == w.spell(es[i].Path());
      CleanIdempotent(es[i].name);
      PlainSurvives(r, es, i, j);
      target := es[i];
      Origins(r, es, |es|);
      assert Comes(r, es, |es|, target);
    }
  }

  lemma OutputWritesBack(r: Rules, es: seq<Entry>, w: Walk, j: nat, i: nat)
    requires Spelled(es, w) && Spells(w)
    requires DistinctPaths(Run(r, es).out) && LinksPointBack(Run(r, es).out)
    requires j < |es| && i < |Run(r, es).out| && From(r, es, j, Run(r, es).out[i]) && Run(r, es).out[i].flag == LINK
    ensures Run(r, es).out[i].Path() in Classes(Run(r, es).out)
    ensures WritesBack(Run(r, es).out, w, i) <==>
            (Redirected(r, es, j) && !ExcludePath(es[j].Path()) ==> w.spell(NewTarget(r, es, j)) == NewTarget(r, es, j))
  {
    var out := Run(r, es).out;
    FromSame(r, es, j, out[i]);
    hide Run, Matches, From, Clean, Classes, ExcludePath, DistinctPaths, LinksPointBack, Spelled;
    var target := OutputLink(r, es, w, j, out[i]);
    var t :| 0 <= t < |out| && out[t] == target;
    ClassOfLink(out, i, t);
  }

  lemma NoneInvented(es: seq<Entry>)
    requires ParentClosed(es)
    ensures forall dir :: !Invented(TreeOf(es), dir)
  {
    UnpackKeys(es);
    hide Clean, ExcludePath, Unpack, Classes, IsAncestor;
    forall dir, k | k in Unpack(es) && IsAncestor(dir, k) ensures dir in Unpack(es) {
      var i :| 0 <= i < |es| && es[i].Path() == k;
      assert HasDir(es, dir);
      var j :| 0 <= j < |es| && es[j].flag == DIR && es[j].Path() == dir;
      assert Holds(es, |es|, dir);
    }
  }

  ghost predicate RedirectsSpelled(r: Rules, es: seq<Entry>, w: Walk, j: nat)
    requires j < |es|
  {
    Redirected(r, es, j) && !ExcludePath(es[j].Path()) ==> w.spell(NewTarget(r, es, j)) == NewTarget(r, es, j)
  }

  /** Each redirected link is in the output, and each link of the output comes from one. */
  lemma LinksMatch(r: Rules, es: seq<Entry>, w: Walk)
    requires Spelled(es, w) && Spells(w)
    requires DistinctPaths(Run(r, es).out) && LinksPointBack(Run(r, es).out)
    requires forall i :: 0 <= i < |Run(r, es).out| ==> Run(r, es).out[i].Path() in Classes(Run(r, es).out)
    ensures (forall i :: 0 <= i < |Run(r, es).out| ==> WritesBack(Run(r, es).out, w, i)) <==>
            (forall j :: 0 <= j < |es| ==> RedirectsSpelled(r, es, w, j))
  {
    hide Run, Matches, From, Clean, Classes, ExcludePath, DistinctPaths, LinksPointBack, Spelled, WritesBack,
         RedirectsSpelled, Redirected, Decide;
    var out := Run(r, es).out;
    Origins(r, es, |es|);
    assert es[..|es|] == es;
    if forall j :: 0 <= j < |es| ==> RedirectsSpelled(r, es, w, j) {
      forall i | 0 <= i < |out| ensures WritesBack(out, w, i) {
        assert out[i] in out;
        var j :| 0 <= j < |es| && From(r, es, j, out[i]);
        LinkMatches(r, es, w, j, i);
      }
    }
    if forall i :: 0 <= i < |out| ==> WritesBack(out, w, i) {
      forall j | 0 <= j < |es| ensures RedirectsSpelled(r, es, w, j) {
        RedirectIsWritten(r, es, w, j);
      }
    }
  }

  lemma LinkMatches(r: Rules, es: seq<Entry>, w: Walk, j: nat, i: nat)
    requires Spelled(es, w) && Spells(w)
    requires DistinctPaths(Run(r, es).out) && LinksPointBack(Run(r, es).out)
    requires j < |es| && i < |Run(r, es).out| && From(r, es, j, Run(r, es).out[i])
    requires Run(r, es).out[i].Path() in Classes(Run(r, es).out)
    ensures WritesBack(Run(r, es).out, w, i) <==> RedirectsSpelled(r, es, w, j)
  {
    hide Run, Matches, From, Clean, Classes, ExcludePath, DistinctPaths, LinksPointBack, Spelled;
    FromSame(r, es, j, Run(r, es).out[i]);
    if Run(r, es).out[i].flag == LINK {
      OutputWritesBack(r, es, w, j, i);
    }
  }

  lemma RedirectIsWritten(r: Rules, es: seq<Entry>, w: Walk, j: nat)
    requires Spelled(es, w) && Spells(w)
    requires DistinctPaths(Run(r, es).out) && LinksPointBack(Run(r, es).out)
    requires forall i :: 0 <= i < |Run(r, es).out| ==> Run(r, es).out[i].Path() in Classes(Run(r, es).out)
    requires j < |es| && forall i :: 0 <= i < |Run(r, es).out| ==> WritesBack(Run(r, es).out, w, i)
    ensures RedirectsSpelled(r, es, w, j)
  {
    var d := Decide(r, Run(r, es[..j]).state, es[j]);
    if Redirected(r, es, j) {
      assert From(r, es, j, d.entry);
      hide Run, Matches, From, Clean, Classes, ExcludePath, DistinctPaths, LinksPointBack, Spelled, WritesBack,
           Redirected, Decide;
      Origins(r, es, |es|);
      assert es[..|es|] == es;
      assert Comes(r, es, |es|, d.entry);
      var i :| 0 <= i < |Run(r, es).out| && Run(r, es).out[i] == d.entry;
      LinkMatches(r, es, w, j, i);
    }
  }

  /** Restoring a filtered backup of a volume: it verifies exactly when every link the
      filter redirected points at a name that the export spells the way the filter wrote
      it, cleaned; whatever the patterns were. */
  lemma FilteredBackupVerifiesIff(r: Rules, es: seq<Entry>, w: Walk, m: Manifest)
    requires DistinctPaths(es) && LinksPointBack(es) && ParentClosed(es)
    requires InOrder(es, w) && Spelled(es, w) && Spells(w)
    requires IsExport(TreeOf(Run(r, es).out), w, m)
    ensures Strip(BuildManifest(Run(r, es).out)) == m <==> forall j :: 0 <= j < |es| ==> RedirectsSpelled(r, es, w, j)
  {
    hide *;
    assert es[..|es|] == es;
    SoundRun(r, es);
    FilterKeepsOrder(r, es, w, |es|);
    FilterKeepsParents(r, es);
    NoneInvented(Run(r, es).out);
    ExportVerifiesIff(Run(r, es).out, w, m);
    LinksMatch(r, es, w);
  }

  // ----- A case in which it does not verify -----

  /** Three plain file names in walk order. */
  ghost predicate ThreeNames(w: Walk, a: string, b: string, c: string)
  {
    && Clean(a) == a && Clean(b) == b && Clean(c) == c && '/' !in a && '/' !in b && '/' !in c
    && w.rank(a) < w.rank(b) < w.rank(c)
  }

  /** A file and two links to it. */
  function Linked(w: Walk, a: string, b: string, c: string, body: Bytes): seq<Entry>
  {
    [Entry(a, REG, "", body), Entry(b, LINK, w.spell(a), []), Entry(c, LINK, w.spell(a), [])]
  }

  lemma PlainNameHasNoParent(p: string, dir: string)
    requires '/' !in p
    ensures !IsAncestor(dir, p)
  {
  }

  lemma LinkedPaths(w: Walk, a: string, b: string, c: string, body: Bytes)
    requires ThreeNames(w, a, b, c) && Spells(w)
    ensures var es := Linked(w, a, b, c, body);
            && es[0].Path() == a && es[1].Path() == b && es[2].Path() == c
            && Clean(es[1].link) == a && Clean(es[2].link) == a
  {
    hide Clean;
  }

  lemma LinkedShape(w: Walk, a: string, b: string, c: string, body: Bytes)
    requires ThreeNames(w, a, b, c) && Spells(w)
    ensures var es := Linked(w, a, b, c, body);
            DistinctPaths(es) && LinksPointBack(es) && ParentClosed(es) && InOrder(es, w) && Spelled(es, w)
  {
    var es := Linked(w, a, b, c, body);
    LinkedPaths(w, a, b, c, body);
    hide Clean, IsAncestor, Spells;
    assert Holds(es, 1, a) && Holds(es, 2, a);
    assert es[0].flag != LINK && es[1].link == w.spell(es[0].Path()) && es[2].link == w.spell(es[0].Path());
    forall i, dir | 0 <= i < |es| ensures !IsAncestor(dir, es[i].Path()) {
      PlainNameHasNoParent(es[i].Path(), dir);
    }
  }

  /** Only the file of that name is excluded, and there is room for it. */
  ghost predicate ExcludesFile(r: Rules, a: string, body: Bytes)
  {
    && (forall e: Entry :: Matches(r, e) <==> e.flag != DIR && e.Path() == a)
    && |body| <= r.entryCap && |body| <= r.totalCap
  }

  lemma LinkedDropped(r: Rules, w: Walk, a: string, b: string, c: string, body: Bytes)
    requires ThreeNames(w, a, b, c) && Spells(w) && ExcludesFile(r, a, body)
    ensures Run(r, Linked(w, a, b, c, body)[..1]) ==
            Pass(State({a}, map[], map[a := body], |body|), [], Stats(1, |body|))
  {
    var es := Linked(w, a, b, c, body);
    LinkedPaths(w, a, b, c, body);
    hide Clean, Matches, Spells, ThreeNames;
    RunNext(r, es, 0);
    assert es[..0] == [];
  }

  lemma LinkedPromoted(r: Rules, w: Walk, a: string, b: string, c: string, body: Bytes)
    requires ThreeNames(w, a, b, c) && Spells(w) && ExcludesFile(r, a, body)
    ensures var p := Run(r, Linked(w, a, b, c, body)[..2]);
            p.state.promoted == map[a := b] && p.out == [Entry(b, REG, "", body)]
  {
    var es := Linked(w, a, b, c, body);
    LinkedPaths(w, a, b, c, body);
    hide Clean, Matches, Spells, Run;
    LinkedDropped(r, w, a, b, c, body);
    RunNext(r, es, 1);
  }

  /** Without the file the first link carries it, and the second is redirected. */
  lemma LinkedFiltered(r: Rules, w: Walk, a: string, b: string, c: string, body: Bytes)
    requires ThreeNames(w, a, b, c) && Spells(w) && ExcludesFile(r, a, body)
    ensures Run(r, Linked(w, a, b, c, body)).out == [Entry(b, REG, "", body), Entry(c, LINK, b, [])]
  {
    var es := Linked(w, a, b, c, body);
    LinkedPaths(w, a, b, c, body);
    hide Clean, Matches, Spells, Run;
    LinkedPromoted(r, w, a, b, c, body);
    RunNext(r, es, 2);
    assert es[..3] == es;
  }

  /** It does fail: a file with two links is excluded and the links are not, and the export
      would not spell the first link's name the clean way. What is recorded then differs
      from every export of what was restored. */
  lemma RedirectDoesNotVerify(r: Rules, w: Walk, a: string, b: string, c: string, body: Bytes)
    requires ThreeNames(w, a, b, c) && Spells(w) && ExcludesFile(r, a, body)
    requires w.spell(b) != b && !ExcludePath(c)
    ensures var es := Linked(w, a, b, c, body);
            && DistinctPaths(es) && LinksPointBack(es) && ParentClosed(es) && InOrder(es, w) && Spelled(es, w)
            && forall m :: IsExport(TreeOf(Run(r, es).out), w, m) ==> Strip(BuildManifest(Run(r, es).out)) != m
  {
    var es := Linked(w, a, b, c, body);
    LinkedShape(w, a, b, c, body);
    RedirectNotSpelled(r, w, a, b, c, body);
    assert Spells(w);
    hide *;
    forall m | IsExport(TreeOf(Run(r, es).out), w, m) ensures Strip(BuildManifest(Run(r, es).out)) != m {
      FilteredBackupVerifiesIff(r, es, w, m);
    }
  }

  lemma RedirectNotSpelled(r: Rules, w: Walk, a: string, b: string, c: string, body: Bytes)
    requires ThreeNames(w, a, b, c) && Spells(w) && ExcludesFile(r, a, body)
    requires w.spell(b) != b && !ExcludePath(c)
    ensures !RedirectsSpelled(r, Linked(w, a, b, c, body), w, 2)
  {
    LinkedPaths(w, a, b, c, body);
    hide Clean, Matches, Run, ExcludePath, Spells;
    LinkedPromoted(r, w, a, b, c, body);
  }

  /** And there is such an export. */
  lemma RedirectIsExported(r: Rules, w: Walk, a: string, b: string, c: string, body: Bytes) returns (m: Manifest)
    requires ThreeNames(w, a, b, c) && Spells(w) && ExcludesFile(r, a, body)
    requires !ExcludePath(b) && !ExcludePath(c)
    ensures IsExport(TreeOf(Run(r, Linked(w, a, b, c, body)).out), w, m)
  {
    hide Run, Unpack, Classes, ExcludePath, IsExport, Spells, ExcludesFile, Linked;
    LinkedFiltered(r, w, a, b, c, body);
    TwoNames(b, c, body);
    m := TwoNamesExported(w, b, c, body);
  }

  lemma TwoNames(b: string, c: string, body: Bytes)
    requires Clean(b) == b && Clean(c) == c && b != c
    ensures TreeOf([Entry(b, REG, "", body), Entry(c, LINK, b, [])]) ==
            Tree(map[b := File(body), c := File(body)], map[b := b, c := b])
  {
    var first, second := Entry(b, REG, "", body), Entry(c, LINK, b, []);
    var es := [first, second];
    hide Clean;
    assert es[..1] == [first] && [first][..0] == [];
    assert Unpack([first]) == map[b := File(body)] && Classes([first]) == map[b := b];
  }

  lemma TwoNamesExported(w: Walk, b: string, c: string, body: Bytes) returns (m: Manifest)
    requires '/' !in b && '/' !in c && w.rank(b) < w.rank(c) && !ExcludePath(b) && !ExcludePath(c)
    ensures IsExport(Tree(map[b := File(body), c := File(body)], map[b := b, c := b]), w, m)
  {
    hide IsAncestor, ExcludePath;
    var t := Tree(map[b := File(body), c := File(body)], map[b := b, c := b]);
    m := map[b := FileInfo(REG, |body|, body, ""), c := FileInfo(LINK, 0, [], w.spell(b))];
    forall dir ensures !IsAncestor(dir, b) && !IsAncestor(dir, c) {
      PlainNameHasNoParent(b, dir);
      PlainNameHasNoParent(c, dir);
    }
    assert Leads(t, w, b, b) && Leads(t, w, b, c);
    assert !Leads(t, w, c, b) && !Leads(t, w, c, c);
  }
}
