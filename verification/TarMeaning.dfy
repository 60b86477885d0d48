/** The filtered archive means what the original meant: every surviving name resolves to
    the same content and no link dangles. */
module TarMeaning {
  import opened Paths
  import opened Manifests
  import opened TarFilter

  /** What a name holds once an archive is unpacked. */
  datatype Node = File(body: Bytes) | Other(flag: char, link: string) | Dangling

  /** A hard link holds whatever its target holds when the link is read. */
  function NodeOf(fs: map<string, Node>, e: Entry): Node
  {
    if e.flag == REG then File(e.body)
    else if e.flag != LINK then Other(e.flag, e.link)
    else if Clean(e.link) in fs then fs[Clean(e.link)]
    else Dangling
  }

  function Unpack(es: seq<Entry>): map<string, Node>
  {
    if es == [] then map[]
    else
      var fs := Unpack(es[..|es| - 1]);
      fs[es[|es| - 1].Path() := NodeOf(fs, es[|es| - 1])]
  }

  ghost predicate DistinctPaths(es: seq<Entry>)
  {
    forall i, j :: 0 <= i < j < |es| ==> es[i].Path() != es[j].Path()
  }

  ghost predicate Holds(es: seq<Entry>, n: nat, path: string)
  {
    exists i :: 0 <= i < n && i < |es| && es[i].Path() == path
  }

  /** Tar writes a file before the hard links to it. */
  ghost predicate LinksPointBack(es: seq<Entry>)
  {
    forall j :: 0 <= j < |es| && es[j].flag == LINK ==> Holds(es, j, Clean(es[j].link))
  }

  lemma UnpackNext(es: seq<Entry>, e: Entry)
    ensures Unpack(es + [e]) == Unpack(es)[e.Path() := NodeOf(Unpack(es), e)]
  {
  }

  lemma {:induction false} UnpackKeys(es: seq<Entry>)
    ensures forall k :: k in Unpack(es) <==> Holds(es, |es|, k)
  {
    hide Clean, Matches;
    if es == [] {
    } else {
      var n := |es| - 1;
      UnpackKeys(es[..n]);
      forall k ensures k in Unpack(es) <==> Holds(es, |es|, k) {
        if Holds(es, |es|, k) {
          var i :| 0 <= i < |es| && es[i].Path() == k;
          if i < n {
            assert es[..n][i].Path() == k;
          }
        }
        if k in Unpack(es[..n]) {
          var i :| 0 <= i < n && es[..n][i].Path() == k;
          assert es[i].Path() == k;
        }
      }
    }
  }

  /** How the filter's memory and what it has written relate to what it has read. */
  ghost predicate Consistent(src: map<string, Node>, out: map<string, Node>, f: State)
  {
    && out.Keys + f.dropped == src.Keys
    && out.Keys !! f.dropped
    && (forall k :: k in out ==> out[k] == src[k])
    && (forall t :: t in f.bodies ==> t in f.dropped && src[t] == File(f.bodies[t]))
    && (forall t :: t in f.promoted ==>
          && t in f.dropped && Clean(f.promoted[t]) == f.promoted[t]
          && f.promoted[t] in out && out[f.promoted[t]] == src[t])
  }

  ghost predicate Sound(es: seq<Entry>, p: Pass)
  {
    Consistent(Unpack(es), Unpack(p.out), p.state)
  }

  lemma KeepConsistent(src: map<string, Node>, out: map<string, Node>, f: State, path: string, node: Node)
    requires Consistent(src, out, f) && path !in src
    ensures Consistent(src[path := node], out[path := node], f)
  {
  }

  lemma DropConsistent(src: map<string, Node>, out: map<string, Node>, f: State, path: string, node: Node, n: int)
    requires Consistent(src, out, f) && path !in src
    ensures Consistent(src[path := node], out, f.(dropped := f.dropped + {path}))
    ensures node.File? ==>
        Consistent(src[path := node], out,
                   f.(dropped := f.dropped + {path}, bodies := f.bodies[path := node.body], buffered := n))
  {
  }

  /** A link that takes a dropped file's bytes stands in for it from then on. */
  lemma PromoteConsistent(src: map<string, Node>, out: map<string, Node>, f: State, path: string, target: string,
                          n: int)
    requires Consistent(src, out, f) && path !in src && target in f.bodies && Clean(path) == path
    ensures Consistent(src[path := src[target]], out[path := src[target]],
                       f.(promoted := f.promoted[target := path], bodies := f.bodies - {target}, buffered := n))
  {
  }

  lemma SoundStep(r: Rules, es: seq<Entry>, p: Pass, e: Entry)
    requires Sound(es, p)
    requires e.Path() !in Unpack(es)
    requires e.flag == LINK ==> Clean(e.link) in Unpack(es)
    ensures Sound(es + [e], Step(r, p, e))
  {
    hide Clean, Matches, Unpack;
    UnpackNext(es, e);
    CleanIdempotent(e.name);
    var d, f := Decide(r, p.state, e), p.state;
    var src, out, node := Unpack(es), Unpack(p.out), NodeOf(Unpack(es), e);
    if !d.Drop? {
      UnpackNext(p.out, d.entry);
      assert NodeOf(out, d.entry) == node;
    }
    KeepConsistent(src, out, f, e.Path(), node);
    DropConsistent(src, out, f, e.Path(), node, f.buffered + |e.body|);
    if d.Promote? {
      PromoteConsistent(src, out, f, e.Path(), Clean(e.link), f.buffered - |d.body|);
    }
  }

  /** What is written keeps its name and, when it is a link, points at something written. */
  lemma WrittenEntry(r: Rules, es: seq<Entry>, p: Pass, e: Entry)
    requires Sound(es, p) && !Decide(r, p.state, e).Drop?
    requires e.Path() !in Unpack(es)
    requires e.flag == LINK ==> Clean(e.link) in Unpack(es)
    ensures e.Path() !in Unpack(p.out)
    ensures var k := Decide(r, p.state, e).entry;
            k.Path() == e.Path() && (k.flag == LINK ==> Clean(k.link) in Unpack(p.out))
  {
  }

  lemma {:induction false} SoundRun(r: Rules, es: seq<Entry>)
    requires DistinctPaths(es) && LinksPointBack(es)
    ensures Sound(es, Run(r, es)) && DistinctPaths(Run(r, es).out) && LinksPointBack(Run(r, es).out)
  {
    hide Clean, Matches;
    if es == [] {
    } else {
      var n := |es| - 1;
      var before, e := es[..n], es[n];
      assert LinksPointBack(before) by {
        forall j | 0 <= j < n && before[j].flag == LINK ensures Holds(before, j, Clean(before[j].link)) {
          var i :| 0 <= i < j && es[i].Path() == Clean(es[j].link);
          assert before[i].Path() == Clean(es[j].link);
        }
      }
      SoundRun(r, before);
      UnpackKeys(before);
      assert es == before + [e];
      if e.flag == LINK {
        var i :| 0 <= i < n && es[i].Path() == Clean(e.link);
        assert before[i].Path() == Clean(e.link);
      }
      forall i | 0 <= i < n ensures before[i].Path() != e.Path() {
        assert es[i].Path() != es[n].Path();
      }
      var p := Run(r, before);
      hide Unpack, Consistent, Decide, After;
      SoundStep(r, before, p, e);
      UnpackKeys(p.out);
      if !Decide(r, p.state, e).Drop? {
        WrittenEntry(r, before, p, e);
        AppendKeepsShape(p.out, Decide(r, p.state, e).entry);
      }
    }
  }

  lemma AppendKeepsShape(out: seq<Entry>, e: Entry)
    requires DistinctPaths(out) && LinksPointBack(out)
    requires !Holds(out, |out|, e.Path())
    requires e.flag == LINK ==> Holds(out, |out|, Clean(e.link))
    ensures DistinctPaths(out + [e]) && LinksPointBack(out + [e])
  {
    hide Clean, Matches;
    var all := out + [e];
    forall j | 0 <= j < |all| && all[j].flag == LINK ensures Holds(all, j, Clean(all[j].link)) {
      var i :| 0 <= i < j && i < |out| && out[i].Path() == Clean(all[j].link);
      assert all[i].Path() == Clean(all[j].link);
    }
    forall i, j | 0 <= i < j < |all| ensures all[i].Path() != all[j].Path() {
      if j == |out| {
        assert out[i].Path() != e.Path();
      }
    }
  }

  /** In the filtered archive every hard link follows its target, and every name that
      survives unpacks to exactly what it unpacks to from the original archive. */
  lemma FilterPreservesMeaning(r: Rules, es: seq<Entry>)
    requires DistinctPaths(es) && LinksPointBack(es)
    ensures var out := Run(r, es).out;
            && DistinctPaths(out) && LinksPointBack(out)
            && forall k :: k in Unpack(out) ==> k in Unpack(es) && Unpack(out)[k] == Unpack(es)[k]
  {
    SoundRun(r, es);
  }
}
