/** Conservation and memory bounds of the tar filter. None of these need a well-formed
    stream. */
module TarAccounting {
  import opened Paths
  import opened Manifests
  import opened TarFilter
  import opened TarMeaning

  /** Bytes of the regular files of an archive. */
  function FileBytes(es: seq<Entry>): nat
  {
    if es == [] then 0 else FileBytes(es[..|es| - 1]) + |es[|es| - 1].Payload()|
  }

  lemma FileBytesNext(es: seq<Entry>, e: Entry)
    ensures FileBytes(es + [e]) == FileBytes(es) + |e.Payload()|
  {
  }

  /** Entries dropped, and links promoted, while reading a stream. */
  function Drops(r: Rules, es: seq<Entry>): nat
  {
    if es == [] then 0
    else Drops(r, es[..|es| - 1]) + if Decide(r, Run(r, es[..|es| - 1]).state, es[|es| - 1]).Drop? then 1 else 0
  }

  function Promotions(r: Rules, es: seq<Entry>): nat
  {
    if es == [] then 0
    else Promotions(r, es[..|es| - 1]) + if Decide(r, Run(r, es[..|es| - 1]).state, es[|es| - 1]).Promote? then 1 else 0
  }

  lemma StepConserves(r: Rules, p: Pass, e: Entry)
    ensures var p', d := Step(r, p, e), Decide(r, p.state, e);
            && FileBytes(p'.out) + p'.stats.bytes == FileBytes(p.out) + p.stats.bytes + |e.Payload()|
            && |p'.out| == |p.out| + (if d.Drop? then 0 else 1)
            && p'.stats.entries == p.stats.entries + (if d.Drop? then 1 else if d.Promote? then -1 else 0)
  {
    hide Clean, Matches;
    var d := Decide(r, p.state, e);
    if !d.Drop? {
      FileBytesNext(p.out, d.entry);
    }
  }

  /** Every byte read is either written or counted as excluded, for any stream: the bytes
      provisionally counted for a file are given back when a link rescues it. */
  lemma {:induction false} BytesConserved(r: Rules, es: seq<Entry>)
    ensures FileBytes(es) == FileBytes(Run(r, es).out) + Run(r, es).stats.bytes
    ensures |es| == |Run(r, es).out| + Drops(r, es)
    ensures Run(r, es).stats.entries == Drops(r, es) - Promotions(r, es)
  {
    if es == [] {
    } else {
      hide Decide, Step;
      var n := |es| - 1;
      BytesConserved(r, es[..n]);
      StepConserves(r, Run(r, es[..n]), es[n]);
    }
  }

  /** Total size of the bodies held for a possible promotion. */
  ghost function Held(bodies: map<string, Bytes>): nat
    decreases |bodies|
  {
    if bodies == map[] then 0
    else
      var k :| k in bodies;
      |bodies[k]| + Held(bodies - {k})
  }

  lemma {:induction false} HeldWithout(bodies: map<string, Bytes>, k: string)
    requires k in bodies
    ensures Held(bodies) == |bodies[k]| + Held(bodies - {k})
    decreases |bodies|
  {
    var x :| x in bodies && Held(bodies) == |bodies[x]| + Held(bodies - {x});
    if x != k {
      HeldWithout(bodies - {x}, k);
      assert bodies - {x} - {k} == bodies - {k} - {x};
      HeldWithout(bodies - {k}, x);
    }
  }

  lemma HeldWith(bodies: map<string, Bytes>, k: string, body: Bytes)
    ensures k !in bodies ==> Held(bodies[k := body]) == Held(bodies) + |body|
    ensures Held(bodies[k := body]) <= Held(bodies) + |body|
  {
    var more := bodies[k := body];
    HeldWithout(more, k);
    assert more - {k} == bodies - {k};
    if k in bodies {
      HeldWithout(bodies, k);
    } else {
      assert bodies - {k} == bodies;
    }
  }

  lemma SizeWith(bodies: map<string, Bytes>, k: string, body: Bytes)
    ensures |bodies[k := body]| <= |bodies| + 1
  {
  }

  lemma SizeWithout(bodies: map<string, Bytes>, k: string)
    requires k in bodies
    ensures |bodies - {k}| == |bodies| - 1
  {
  }

  ghost predicate Bounded(r: Rules, p: Pass)
  {
    && Held(p.state.bodies) <= p.state.buffered <= r.totalCap
    && Held(p.state.bodies) <= p.stats.bytes
    && |p.state.bodies| <= p.stats.entries
  }

  lemma BoundedStep(r: Rules, p: Pass, e: Entry)
    requires Bounded(r, p)
    ensures Bounded(r, Step(r, p, e))
  {
    hide Clean, Matches;
    var f := p.state;
    match Decide(r, f, e)
    case Keep(_) =>
    case Promote(_, body) =>
      HeldWithout(f.bodies, Clean(e.link));
      SizeWithout(f.bodies, Clean(e.link));
    case Drop(_) =>
      HeldWith(f.bodies, e.Path(), e.body);
      SizeWith(f.bodies, e.Path(), e.body);
  }

  /** At every point of every stream the bodies held in memory total at most the
      filter's counter, the counter never exceeds its cap, and no statistic is ever
      negative however many promotions are unwound. */
  lemma {:induction false} MemoryBounded(r: Rules, es: seq<Entry>)
    ensures Bounded(r, Run(r, es))
    ensures Run(r, es).stats.entries >= 0 && Run(r, es).stats.bytes >= 0
  {
    if es == [] {
    } else {
      MemoryBounded(r, es[..|es| - 1]);
      BoundedStep(r, Run(r, es[..|es| - 1]), es[|es| - 1]);
    }
  }

  ghost predicate Exact(es: seq<Entry>, f: State)
  {
    Held(f.bodies) == f.buffered && forall k :: k in f.bodies ==> Holds(es, |es|, k)
  }

  lemma ExactStep(r: Rules, es: seq<Entry>, f: State, e: Entry)
    requires Exact(es, f) && !Holds(es, |es|, e.Path())
    ensures Exact(es + [e], After(r, f, e))
  {
    hide Clean, Matches;
    forall k ensures Holds(es, |es|, k) || k == e.Path() ==> Holds(es + [e], |es| + 1, k) {
      if Holds(es, |es|, k) {
        var i :| 0 <= i < |es| && es[i].Path() == k;
        assert (es + [e])[i].Path() == k;
      } else if k == e.Path() {
        assert (es + [e])[|es|].Path() == k;
      }
    }
    match Decide(r, f, e)
    case Keep(_) =>
    case Promote(_, _) => HeldWithout(f.bodies, Clean(e.link));
    case Drop(_) => HeldWith(f.bodies, e.Path(), e.body);
  }

  /** With distinct names the counter is exact. */
  lemma {:induction false} BufferedExact(r: Rules, es: seq<Entry>)
    requires DistinctPaths(es)
    ensures Exact(es, Run(r, es).state)
  {
    hide Clean, Matches;
    if es == [] {
    } else {
      var n := |es| - 1;
      BufferedExact(r, es[..n]);
      assert es == es[..n] + [es[n]];
      forall i | 0 <= i < n ensures es[..n][i].Path() != es[n].Path() {
        assert es[..n][i] == es[i];
      }
      ExactStep(r, es[..n], Run(r, es[..n]).state, es[n]);
    }
  }

  /** Every directory on the way to an entry has its own entry. */
  ghost predicate ParentClosed(es: seq<Entry>)
  {
    forall i, dir :: 0 <= i < |es| && IsAncestor(dir, es[i].Path()) ==> HasDir(es, dir)
  }

  ghost predicate HasDir(es: seq<Entry>, dir: string)
  {
    exists j :: 0 <= j < |es| && es[j].flag == DIR && es[j].Path() == dir
  }

  ghost predicate HasName(es: seq<Entry>, name: string)
  {
    exists j :: 0 <= j < |es| && es[j].name == name
  }

  lemma HasNameNext(es: seq<Entry>, e: Entry, name: string)
    ensures HasName(es + [e], name) <==> HasName(es, name) || name == e.name
  {
    var all := es + [e];
    if HasName(es, name) {
      var j :| 0 <= j < |es| && es[j].name == name;
      assert all[j].name == name;
    }
    assert all[|es|] == e;
    assert forall j :: 0 <= j < |es| ==> all[j] == es[j];
  }

  /** No name is invented, and no directory entry is ever dropped. */
  lemma {:induction false} OutputNames(r: Rules, es: seq<Entry>)
    ensures forall i :: 0 <= i < |Run(r, es).out| ==> HasName(es, Run(r, es).out[i].name)
    ensures forall j :: 0 <= j < |es| && es[j].flag == DIR ==> es[j] in Run(r, es).out
  {
    if es == [] {
    } else {
      var n := |es| - 1;
      OutputNames(r, es[..n]);
      assert es == es[..n] + [es[n]];
      var before, after := Run(r, es[..n]).out, Run(r, es).out;
      forall i | 0 <= i < |after| ensures HasName(es, after[i].name) {
        HasNameNext(es[..n], es[n], after[i].name);
      }
      forall j | 0 <= j < |es| && es[j].flag == DIR ensures es[j] in after {
        if j < n {
          assert es[..n][j] in before;
        }
      }
    }
  }

  /** An archive closed under parent directories stays closed: a pattern can empty a
      directory but never remove it. */
  lemma FilterKeepsParents(r: Rules, es: seq<Entry>)
    requires ParentClosed(es)
    ensures ParentClosed(Run(r, es).out)
  {
    OutputNames(r, es);
    var out := Run(r, es).out;
    forall i, dir | 0 <= i < |out| && IsAncestor(dir, out[i].Path()) ensures HasDir(out, dir) {
      assert HasName(es, out[i].name);
      var j :| 0 <= j < |es| && es[j].name == out[i].name;
      assert IsAncestor(dir, es[j].Path());
      assert HasDir(es, dir);
      var d :| 0 <= d < |es| && es[d].flag == DIR && es[d].Path() == dir;
      assert es[d] in out;
    }
  }
}
