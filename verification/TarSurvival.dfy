/** Exactly which entries of a stream the filter writes. */
module TarSurvival {
  import opened Paths
  import opened Manifests
  import opened TarFilter
  import opened TarMeaning

  /** When the filter reached this file it had room to keep its body, should it be dropped. */
  predicate Bufferable(r: Rules, es: seq<Entry>, j: nat)
    requires j < |es|
  {
    es[j].flag == REG && |es[j].body| <= r.entryCap && Run(r, es[..j]).state.buffered + |es[j].body| <= r.totalCap
  }

  /** No pattern names the entry, and if it is a link to an entry that does not survive,
      that entry is a file whose body the filter could keep. */
  predicate Survives(r: Rules, es: seq<Entry>, i: nat)
    requires i < |es|
    decreases i
  {
    && !Matches(r, es[i])
    && (es[i].flag == LINK ==>
          forall j :: 0 <= j < i && es[j].Path() == Clean(es[i].link) ==> Survives(r, es, j) || Bufferable(r, es, j))
  }

  /** Names of the first `n` entries that do not survive, */
  function Lost(r: Rules, es: seq<Entry>, n: nat): set<string>
    requires n <= |es|
  {
    set i | 0 <= i < n && !Survives(r, es, i) :: es[i].Path()
  }

  /** of those among them whose bytes were kept, */
  function Saved(r: Rules, es: seq<Entry>, n: nat): set<string>
    requires n <= |es|
  {
    set i | 0 <= i < n && !Survives(r, es, i) && Bufferable(r, es, i) :: es[i].Path()
  }

  /** and of those that do survive. */
  function Surviving(r: Rules, es: seq<Entry>, n: nat): set<string>
    requires n <= |es|
  {
    set i | 0 <= i < n && Survives(r, es, i) :: es[i].Path()
  }

  function Written(out: seq<Entry>): set<string>
  {
    set i | 0 <= i < |out| :: out[i].Path()
  }

  /** The pass after `n` entries, told by what survives. */
  ghost predicate Traces(r: Rules, es: seq<Entry>, n: nat, p: Pass)
    requires n <= |es|
  {
    && p.state.dropped == Lost(r, es, n)
    && p.state.bodies.Keys + p.state.promoted.Keys == Saved(r, es, n)
    && Written(p.out) == Surviving(r, es, n)
  }

  lemma DropsIff(r: Rules, es: seq<Entry>, n: nat)
    requires DistinctPaths(es) && n < |es| && Traces(r, es, n, Run(r, es[..n]))
    ensures Decide(r, Run(r, es[..n]).state, es[n]).Drop? <==> !Survives(r, es, n)
  {
    hide Clean, Matches, Run, Bufferable;
    var f, target := Run(r, es[..n]).state, Clean(es[n].link);
    assert target in f.bodies || target in f.promoted <==> target in Saved(r, es, n);
    if es[n].flag == LINK && target in f.dropped {
      var i :| 0 <= i < n && es[i].Path() == target && !Survives(r, es, i);
      assert forall j :: 0 <= j < n && es[j].Path() == target ==> j == i;
    } else if es[n].flag == LINK {
      forall j | 0 <= j < n && es[j].Path() == target ensures Survives(r, es, j) {
        assert target !in Lost(r, es, n);
      }
    }
  }

  /** One more entry joins exactly one of the lists. */
  lemma NamesNext(r: Rules, es: seq<Entry>, n: nat)
    requires n < |es|
    ensures var here := {es[n].Path()};
            && Lost(r, es, n + 1) == Lost(r, es, n) + (if Survives(r, es, n) then {} else here)
            && Surviving(r, es, n + 1) == Surviving(r, es, n) + (if Survives(r, es, n) then here else {})
            && Saved(r, es, n + 1) == Saved(r, es, n)
                                      + (if !Survives(r, es, n) && Bufferable(r, es, n) then here else {})
  {
    hide Clean, Survives, Bufferable;
  }

  lemma AfterNames(r: Rules, f: State, e: Entry)
    ensures var g, d := After(r, f, e), Decide(r, f, e);
            && g.dropped == f.dropped + (if d.Drop? then {e.Path()} else {})
            && g.bodies.Keys + g.promoted.Keys
               == f.bodies.Keys + f.promoted.Keys + (if d == Drop(true) then {e.Path()} else {})
            && (!d.Drop? ==> d.entry.Path() == e.Path())
  {
    hide Clean, Matches;
  }

  lemma BuffersIff(r: Rules, es: seq<Entry>, n: nat)
    requires n < |es| && Decide(r, Run(r, es[..n]).state, es[n]).Drop?
    ensures Decide(r, Run(r, es[..n]).state, es[n]).buffer <==> Bufferable(r, es, n)
  {
    hide Clean, Matches, Run;
  }

  lemma TracesNext(r: Rules, es: seq<Entry>, n: nat)
    requires DistinctPaths(es) && n < |es| && Traces(r, es, n, Run(r, es[..n]))
    ensures Traces(r, es, n + 1, Step(r, Run(r, es[..n]), es[n]))
  {
    hide Clean, Matches, Run, Survives, Bufferable, Lost, Saved, Surviving, Written, Decide, After, DistinctPaths;
    DropsIff(r, es, n);
    NamesNext(r, es, n);
    var p := Run(r, es[..n]);
    AfterNames(r, p.state, es[n]);
    var d := Decide(r, p.state, es[n]);
    if d.Drop? {
      BuffersIff(r, es, n);
    } else {
      WrittenNext(p.out, d.entry);
    }
  }

  lemma WrittenNext(out: seq<Entry>, e: Entry)
    ensures Written(out + [e]) == Written(out) + {e.Path()}
  {
    hide Clean;
    var all := out + [e];
    forall i | 0 <= i < |all| ensures all[i].Path() in Written(out) + {e.Path()} {
      assert i < |out| ==> out[i].Path() in Written(out);
    }
    forall i | 0 <= i < |out| ensures out[i].Path() in Written(all) {
      assert all[i] == out[i];
    }
    assert all[|out|] == e;
  }

  lemma {:induction false} RunTraces(r: Rules, es: seq<Entry>, n: nat)
    requires DistinctPaths(es) && n <= |es|
    ensures Traces(r, es, n, Run(r, es[..n]))
  {
    if n == 0 {
      hide Clean, Matches, Survives, Bufferable;
      assert es[..0] == [];
    } else {
      hide *;
      RunTraces(r, es, n - 1);
      TracesNext(r, es, n - 1);
      RunNext(r, es, n - 1);
    }
  }

  /** For every stream with distinct names, an entry is in the output exactly when it
      survives: an unmatched entry is missing only if it is a link, however indirect, to
      something that was dropped and could not be kept. */
  lemma EmittedIff(r: Rules, es: seq<Entry>, i: nat)
    requires DistinctPaths(es) && i < |es|
    ensures es[i].Path() in Written(Run(r, es).out) <==> Survives(r, es, i)
  {
    hide Run, Survives, Clean, Written;
    RunTraces(r, es, |es|);
    assert es[..|es|] == es;
    if es[i].Path() in Surviving(r, es, |es|) {
      var j :| 0 <= j < |es| && Survives(r, es, j) && es[j].Path() == es[i].Path();
      assert j == i;
    }
  }

  /** It does happen: a link no pattern names goes with its target, an excluded file too
      large to be kept. */
  lemma LargeTargetTakesLink(r: Rules, a: string, b: string, body: Bytes) returns (es: seq<Entry>)
    requires Clean(a) == a && Clean(b) == b && a != b && |body| > r.entryCap
    requires forall e: Entry :: Matches(r, e) <==> e.flag != DIR && e.Path() == a
    ensures es == [Entry(a, REG, "", body), Entry(b, LINK, a, [])] && DistinctPaths(es) && LinksPointBack(es)
    ensures !Matches(r, es[1]) && es[1].Path() !in Written(Run(r, es).out)
  {
    es := [Entry(a, REG, "", body), Entry(b, LINK, a, [])];
    hide Clean, Matches, Run, Written;
    assert es[0].Path() == a && es[1].Path() == b;
    assert Holds(es, 1, a);
    assert !Survives(r, es, 0) && !Bufferable(r, es, 0);
    EmittedIff(r, es, 1);
  }

  // ----- A condition on the stream alone -----

  /** Bytes of the excluded files small enough to be kept at all. */
  function KeepableBytes(r: Rules, es: seq<Entry>): nat
  {
    if es == [] then 0
    else
      var e := es[|es| - 1];
      KeepableBytes(r, es[..|es| - 1]) + if Matches(r, e) && |e.Payload()| <= r.entryCap then |e.Payload()| else 0
  }

  lemma {:induction false} KeepableGrows(r: Rules, es: seq<Entry>, j: nat)
    requires j < |es|
    ensures KeepableBytes(r, es[..j])
            + (if Matches(r, es[j]) && |es[j].Payload()| <= r.entryCap then |es[j].Payload()| else 0)
            <= KeepableBytes(r, es)
  {
    hide Matches, Clean;
    var n := |es| - 1;
    if j < n {
      KeepableGrows(r, es[..n], j);
      assert es[..n][..j] == es[..j] && es[..n][j] == es[j];
    }
  }

  lemma {:induction false} CounterBound(r: Rules, es: seq<Entry>)
    ensures Run(r, es).state.buffered <= KeepableBytes(r, es)
  {
    hide Matches, Clean;
    if es == [] {
    } else {
      CounterBound(r, es[..|es| - 1]);
    }
  }

  ghost predicate LinksToFiles(es: seq<Entry>)
  {
    forall j :: 0 <= j < |es| && es[j].flag == LINK ==>
      exists i :: 0 <= i < j && es[i].flag == REG && es[i].Path() == Clean(es[j].link)
  }

  /** Each excluded file that a surviving link needs is small enough to be kept, and all
      files small enough fit together; larger ones that no such link needs do not matter. */
  ghost predicate FitsCaps(r: Rules, es: seq<Entry>)
  {
    && (forall i, j :: 0 <= i < j < |es| && NeedsBody(r, es, i, j) ==> |es[i].body| <= r.entryCap)
    && KeepableBytes(r, es) <= r.totalCap
  }

  predicate NeedsBody(r: Rules, es: seq<Entry>, i: nat, j: nat)
    requires i < j < |es|
  {
    es[i].flag == REG && Matches(r, es[i]) && es[j].flag == LINK && !Matches(r, es[j])
      && Clean(es[j].link) == es[i].Path()
  }

  /** When links target regular files and the bodies they need fit, an entry is missing
      from the output exactly when a pattern names it. */
  lemma UnmatchedEntriesSurvive(r: Rules, es: seq<Entry>, i: nat)
    requires DistinctPaths(es) && LinksToFiles(es) && FitsCaps(r, es) && i < |es|
    ensures es[i].Path() in Written(Run(r, es).out) <==> !Matches(r, es[i])
  {
    EmittedIff(r, es, i);
    hide Clean, Matches, Run, Written;
    if es[i].flag == LINK && !Matches(r, es[i]) {
      var t :| 0 <= t < i && es[t].flag == REG && es[t].Path() == Clean(es[i].link);
      assert forall j :: 0 <= j < i && es[j].Path() == es[t].Path() ==> j == t;
      if Matches(r, es[t]) {
        assert NeedsBody(r, es, t, i);
        CounterBound(r, es[..t]);
        KeepableGrows(r, es, t);
        assert Bufferable(r, es, t);
      } else {
        assert Survives(r, es, t);
      }
    }
  }
}
