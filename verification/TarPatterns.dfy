/** What exclude patterns mean for an archive. */
module TarPatterns {
  import opened Paths
  import opened Manifests
  import opened TarFilter
  import opened TarMeaning
  import opened TarSurvival

  /** How the matcher reads a trailing globstar: as what the pattern before it matches, and
      everything below that. */
  ghost predicate ReadsGlobstar(glob: (string, string) -> bool)
  {
    forall d, path :: glob(d + "/**", path) <==> glob(d, path) || Below(glob, d, path)
  }

  ghost predicate Below(glob: (string, string) -> bool, d: string, path: string)
  {
    exists x :: glob(d, x) && IsAncestor(x, path)
  }

  /** A pattern with a trailing globstar is meant for what lies below, and not for what it
      lies below of; any other pattern for what it matches. */
  ghost predicate MeantFor(glob: (string, string) -> bool, p: string, path: string)
  {
    if exists d :: p == d + "/**" then exists d :: p == d + "/**" && Below(glob, d, path) && !glob(d, path)
    else glob(p, path)
  }

  lemma NamesIff(r: Rules, p: string, path: string)
    requires ReadsGlobstar(r.glob)
    ensures Names(r, p, path) <==> MeantFor(r.glob, p, path)
  {
    HasSuffixIff(p, "/**");
    if HasSuffix(p, "/**") {
      var d := p[..|p| - 3];
      assert p == d + "/**";
      forall x | p == x + "/**" ensures x == d {
        assert (x + "/**")[..|p| - 3] == x;
      }
    }
  }

  /** An entry is excluded exactly when it is no directory and some pattern is meant for it. */
  lemma MatchesIff(r: Rules, e: Entry)
    requires ReadsGlobstar(r.glob)
    ensures Matches(r, e) <==> e.flag != DIR && exists p :: p in r.patterns && MeantFor(r.glob, p, e.Path())
  {
    hide Clean, Names, MeantFor, ReadsGlobstar;
    forall p ensures Names(r, p, e.Path()) <==> MeantFor(r.glob, p, e.Path()) {
      NamesIff(r, p, e.Path());
    }
    if p :| p in r.patterns && MeantFor(r.glob, p, e.Path()) {
      var i :| 0 <= i < |r.patterns| && r.patterns[i] == p;
      assert Names(r, r.patterns[i], e.Path());
    }
  }

  /** The pattern for the contents of one directory. */
  ghost predicate ContentsOf(r: Rules, d: string)
  {
    r.patterns == [d + "/**"] && ReadsGlobstar(r.glob) && forall x :: r.glob(d, x) <==> x == d
  }

  lemma ContentsMatched(r: Rules, d: string, e: Entry)
    requires ContentsOf(r, d)
    ensures Matches(r, e) <==> e.flag != DIR && IsAncestor(d, e.Path())
  {
    var p, path := d + "/**", e.Path();
    MatchesIff(r, e);
    hide Matches;
    assert p in r.patterns;
    assert MeantFor(r.glob, p, path) <==> IsAncestor(d, path) by {
      forall x | p == x + "/**" ensures x == d {
        assert (x + "/**")[..|p| - 3] == x && p[..|p| - 3] == d;
      }
      assert Below(r.glob, d, path) <==> IsAncestor(d, path) by {
        assert r.glob(d, d);
      }
    }
    hide MeantFor, Clean;
  }

  /** Excluding the contents of a directory takes everything below it but directories, and
      neither the directory nor anything else, unless that is a hard link to what went. */
  lemma ContentsExcluded(r: Rules, d: string, es: seq<Entry>, i: nat)
    requires ContentsOf(r, d) && DistinctPaths(es) && i < |es|
    ensures es[i].flag != DIR && IsAncestor(d, es[i].Path()) ==> es[i].Path() !in Written(Run(r, es).out)
    ensures es[i].flag == DIR || (es[i].flag != LINK && !IsAncestor(d, es[i].Path())) ==>
            es[i].Path() in Written(Run(r, es).out)
  {
    ContentsMatched(r, d, es[i]);
    hide Clean, Matches, Run, Written, ContentsOf, DistinctPaths;
    EmittedIff(r, es, i);
  }

  /** Under a backup's bounds the link to an excluded file takes its place exactly when the
      file has at most 64 MiB. */
  lemma RescuedIff(patterns: seq<string>, glob: (string, string) -> bool, a: string, b: string, body: Bytes)
    requires Clean(a) == a && Clean(b) == b && a != b
    requires forall e: Entry :: Matches(Standard(patterns, glob), e) <==> e.flag != DIR && e.Path() == a
    ensures var es := [Entry(a, REG, "", body), Entry(b, LINK, a, [])];
            b in Written(Run(Standard(patterns, glob), es).out) <==> |body| <= 0x400_0000
  {
    var r, es := Standard(patterns, glob), [Entry(a, REG, "", body), Entry(b, LINK, a, [])];
    assert Run(r, es[..0]).state.buffered == 0;
    hide Clean, Matches, Run, Written;
    assert es[0].Path() == a && es[1].Path() == b;
    EmittedIff(r, es, 1);
    assert !Survives(r, es, 0);
  }
}
