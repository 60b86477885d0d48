/** The one-pass tar filter behind backup exclude patterns. Matching files are dropped
    from the stream; a surviving hard link to a dropped file is promoted to carry the
    file's bytes, and later links are redirected to it. */
module TarFilter {
  import opened Paths
  import opened Manifests

  /** Exclude patterns, the glob matcher they are read with, and the two memory bounds. */
  datatype Rules = Rules(patterns: seq<string>, glob: (string, string) -> bool, entryCap: nat, totalCap: nat)

  const MAX_PROMOTABLE_LINK_TARGET: nat := 64 * 1024 * 1024
  const MAX_TOTAL_BUFFERED_BYTES: nat := 512 * 1024 * 1024

  /** The rules of a backup: its patterns, and the daemon's bounds. */
  function Standard(patterns: seq<string>, glob: (string, string) -> bool): Rules
  {
    Rules(patterns, glob, MAX_PROMOTABLE_LINK_TARGET, MAX_TOTAL_BUFFERED_BYTES)
  }

  // One pattern names a path, unless it is a "/**" pattern whose globstar matched
  // nothing: such a pattern means the contents of a directory, not the entry itself.
  predicate Names(r: Rules, p: string, path: string)
  {
    r.glob(p, path) && !(HasSuffix(p, "/**") && r.glob(p[..|p| - 3], path))
  }

  /** Some pattern names the entry; a directory entry is never named. */
  predicate Matches(r: Rules, e: Entry)
  {
    e.flag != DIR && exists i :: 0 <= i < |r.patterns| && Names(r, r.patterns[i], e.Path())
  }

  /** The filter's memory: dropped paths, where a dropped file's bytes went, bodies kept
      for a possible promotion and their running total. */
  datatype State = State(dropped: set<string>, promoted: map<string, string>, bodies: map<string, Bytes>, buffered: int)

  const EMPTY := State({}, map[], map[], 0)

  datatype Decision =
    | Drop(buffer: bool)
    | Keep(entry: Entry)
    | Promote(entry: Entry, body: Bytes)

  /** What becomes of an entry, given what the stream has shown so far. */
  function Decide(r: Rules, f: State, e: Entry): Decision
  {
    var target := Clean(e.link);
    var survives := !Matches(r, e);
    if survives && e.flag == LINK && target in f.promoted then
      Keep(e.(link := f.promoted[target]))
    else if survives && e.flag == LINK && target in f.dropped && target in f.bodies then
      Promote(e.(flag := REG, link := "", body := f.bodies[target]), f.bodies[target])
    else if survives && !(e.flag == LINK && target in f.dropped) then
      Keep(e)
    else
      Drop(e.flag == REG && |e.body| <= r.entryCap && f.buffered + |e.body| <= r.totalCap)
  }

  /** The filter's memory after that decision has been carried out. */
  function After(r: Rules, f: State, e: Entry): State
  {
    match Decide(r, f, e)
    case Keep(_) => f
    case Promote(_, body) =>
      var target := Clean(e.link);
      f.(promoted := f.promoted[target := e.Path()], bodies := f.bodies - {target}, buffered := f.buffered - |body|)
    case Drop(buffer) =>
      var g := f.(dropped := f.dropped + {e.Path()});
      if buffer then g.(bodies := g.bodies[e.Path() := e.body], buffered := g.buffered + |e.body|) else g
  }

  /** What was excluded, as reported with the backup. */
  datatype Stats = Stats(entries: int, bytes: int)

  /** A pass over a stream: the filter's memory, the archive written, the statistics. */
  datatype Pass = Pass(state: State, out: seq<Entry>, stats: Stats)

  function Step(r: Rules, s: Pass, e: Entry): Pass
  {
    var state := After(r, s.state, e);
    match Decide(r, s.state, e)
    case Keep(k) => Pass(state, s.out + [k], s.stats)
    case Promote(k, body) => Pass(state, s.out + [k], Stats(s.stats.entries - 1, s.stats.bytes - |body|))
    case Drop(_) => Pass(state, s.out, Stats(s.stats.entries + 1, s.stats.bytes + |e.Payload()|))
  }

  function Run(r: Rules, es: seq<Entry>): Pass
  {
    if es == [] then Pass(EMPTY, [], Stats(0, 0)) else Step(r, Run(r, es[..|es| - 1]), es[|es| - 1])
  }

  /** The stateful filter: single use, one call per entry in stream order. */
  class DropFilter {
    const rules: Rules
    var dropped: set<string>
    var promoted: map<string, string>
    var bodies: map<string, Bytes>
    var buffered: int

    function View(): State
      reads this
    {
      State(dropped, promoted, bodies, buffered)
    }

    constructor (rules: Rules)
      ensures View() == EMPTY && this.rules == rules
    {
      this.rules := rules;
      dropped, promoted, bodies, buffered := {}, map[], map[], 0;
    }

    method MatchesEntry(e: Entry) returns (yes: bool)
      ensures yes <==> Matches(rules, e)
    {
      for i := 0 to |rules.patterns|
        invariant e.flag == DIR || forall j :: 0 <= j < i ==> !Names(rules, rules.patterns[j], e.Path())
      {
        var p := rules.patterns[i];
        if !rules.glob(p, e.Path()) {
          continue;
        }
        if HasSuffix(p, "/**") && rules.glob(p[..|p| - 3], e.Path()) {
          continue;
        }
        if e.flag == DIR {
          continue;
        }
        assert Names(rules, rules.patterns[i], e.Path());
        return true;
      }
      return false;
    }

    /** The header may be rewritten; `promoted` carries the bytes a promoted link ships.
        A dropped body that must be kept is handed back through `StoreBody`. */
    method DecideEntry(e: Entry) returns (drop: bool, needsBuffer: bool, hdr: Entry, promotedBody: seq<Bytes>)
      modifies this
      ensures drop <==> Decide(rules, old(View()), e).Drop?
      ensures needsBuffer <==> Decide(rules, old(View()), e) == Drop(true)
      ensures !drop ==> hdr == Decide(rules, old(View()), e).entry
      ensures promotedBody ==
              if Decide(rules, old(View()), e).Promote? then [Decide(rules, old(View()), e).body] else []
      ensures needsBuffer ==> View() == old(View()).(dropped := old(dropped) + {e.Path()})
      ensures !needsBuffer ==> View() == After(rules, old(View()), e)
    {
      hdr, promotedBody, needsBuffer := e, [], false;
      var match_ := MatchesEntry(e);
      if !match_ && e.flag == LINK {
        var target := Clean(e.link);
        if target in promoted {
          hdr := hdr.(link := promoted[target]);
        } else if target in dropped {
          if target in bodies {
            var body := bodies[target];
            hdr := hdr.(flag := REG, link := "", body := body);
            promoted := promoted[target := e.Path()];
            promotedBody := [body];
            bodies := bodies - {target};
            buffered := buffered - |body|;
          } else {
            match_ := true;
          }
        }
      }
      if match_ {
        dropped := dropped + {e.Path()};
        needsBuffer := hdr.flag == REG && |hdr.body| <= rules.entryCap && buffered + |hdr.body| <= rules.totalCap;
      }
      drop := match_;
    }

    method StoreBody(path: string, body: Bytes)
      modifies this
      ensures View() == old(View()).(bodies := old(bodies)[path := body], buffered := old(buffered) + |body|)
    {
      bodies := bodies[path := body];
      buffered := buffered + |body|;
    }
  }

  lemma RunNext(r: Rules, es: seq<Entry>, i: nat)
    requires i < |es|
    ensures Run(r, es[..i + 1]) == Step(r, Run(r, es[..i]), es[i])
  {
    assert es[..i + 1][..i] == es[..i];
  }

  /** Puts one entry through the filter; `kept` holds the header to write, if any. */
  method FilterEntry(drop: DropFilter, e: Entry, stats: Stats, ghost out: seq<Entry>)
      returns (kept: seq<Entry>, after: Stats)
    modifies drop
    ensures |kept| <= 1
    ensures Pass(drop.View(), out + kept, after) == Step(drop.rules, Pass(old(drop.View()), out, stats), e)
  {
    after := stats;
    var dropped, needsBuffer, hdr, promotedBody := drop.DecideEntry(e);
    if promotedBody != [] {
      after := Stats(after.entries - 1, after.bytes - |promotedBody[0]|);
    }
    if dropped {
      if needsBuffer {
        drop.StoreBody(e.Path(), e.body);
      }
      after := Stats(after.entries + 1, after.bytes + |e.Payload()|);
      assert out + [] == out;
      return [], after;
    }
    return [hdr], after;
  }

  /** Reads a stream in order, dropping and rewriting entries through `drop` when there
      is one, and fingerprints what it writes. */
  method ParseTar(src: seq<Entry>, drop: DropFilter?) returns (m: Manifest, out: seq<Entry>, stats: Stats)
    requires drop != null ==> drop.View() == EMPTY
    modifies drop
    ensures m == BuildManifest(out)
    ensures drop == null ==> out == src && stats == Stats(0, 0)
    ensures drop != null ==> Pass(drop.View(), out, stats) == Run(drop.rules, src)
  {
    hide Step, Record;
    m, out, stats := map[], [], Stats(0, 0);
    for i := 0 to |src|
      invariant m == BuildManifest(out)
      invariant drop == null ==> out == src[..i] && stats == Stats(0, 0)
      invariant drop != null ==> Pass(drop.View(), out, stats) == Run(drop.rules, src[..i])
    {
      var kept := [src[i]];
      if drop != null {
        RunNext(drop.rules, src, i);
        kept, stats := FilterEntry(drop, src[i], stats, out);
      }
      if kept != [] {
        var hdr := kept[0];
        assert kept == [hdr];
        BuildNext(out, hdr);
        out := out + [hdr];
        m := Record(m, hdr);
      } else {
        assert out + kept == out;
      }
    }
    assert src[..|src|] == src;
  }

  datatype FilterResult = BadPattern | Filtered(manifest: Manifest, out: seq<Entry>, stats: Stats)

  /** Filters an archive; an invalid pattern is refused before anything is read. With no
      patterns there is no filter and everything is copied. */
  method FilterTar(src: seq<Entry>, patterns: seq<string>, glob: (string, string) -> bool, valid: string -> bool)
      returns (res: FilterResult)
    ensures res.BadPattern? <==> exists i :: 0 <= i < |patterns| && !valid(patterns[i])
    ensures res.Filtered? ==> res.manifest == BuildManifest(res.out)
    ensures res.Filtered? ==>
            var pass := Run(Standard(patterns, glob), src); res.out == pass.out && res.stats == pass.stats
  {
    var drop: DropFilter? := null;
    for i := 0 to |patterns|
      invariant forall j :: 0 <= j < i ==> valid(patterns[j])
    {
      if !valid(patterns[i]) {
        return BadPattern;
      }
    }
    if patterns != [] {
      drop := new DropFilter(Standard(patterns, glob));
    } else {
      NoPatternsCopies(Standard(patterns, glob), src);
    }
    var m, out, stats := ParseTar(src, drop);
    return Filtered(m, out, stats);
  }

  lemma {:induction false} NoPatternsCopies(r: Rules, es: seq<Entry>)
    requires r.patterns == []
    ensures Run(r, es) == Pass(EMPTY, es, Stats(0, 0))
  {
    if es == [] {
    } else {
      NoPatternsCopies(r, es[..|es| - 1]);
      assert es == es[..|es| - 1] + [es[|es| - 1]];
    }
  }
}
