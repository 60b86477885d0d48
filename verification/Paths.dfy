/** Lexical path handling: the cleaning applied to tar entry names before they are
    compared, and the paths left out of integrity comparison. */
module Paths {

  /** The slash-separated elements of `p`; always at least one. */
  function Split(p: string): (segs: seq<string>)
    ensures |segs| >= 1
    ensures forall s :: s in segs ==> '/' !in s
  {
    if p == "" then
      [""]
    else if p[0] == '/' then
      [""] + Split(p[1..])
    else
      var rest := Split(p[1..]);
      [[p[0]] + rest[0]] + rest[1..]
  }

  function Join(segs: seq<string>): string
  {
    if segs == [] then "" else if |segs| == 1 then segs[0] else segs[0] + "/" + Join(segs[1..])
  }

  /** One element of the cleaning pass: "." and empty elements vanish, ".." cancels
      the element before it, and a leading ".." survives only in a relative path. */
  function Push(stack: seq<string>, seg: string, rooted: bool): seq<string>
  {
    if seg == "" || seg == "." then
      stack
    else if seg == ".." then
      if stack != [] && stack[|stack| - 1] != ".." then stack[..|stack| - 1]
      else if rooted then stack
      else stack + [seg]
    else
      stack + [seg]
  }

  function Normalize(stack: seq<string>, segs: seq<string>, rooted: bool): seq<string>
    decreases |segs|
  {
    if segs == [] then stack else Normalize(Push(stack, segs[0], rooted), segs[1..], rooted)
  }

  /** `path.Clean`. */
  function Clean(p: string): string
  {
    var rooted := p != "" && p[0] == '/';
    var segs := Normalize([], Split(p), rooted);
    if rooted then "/" + Join(segs) else if segs == [] then "." else Join(segs)
  }

  /** No element left to simplify: no "" or ".", and ".." only at the front. */
  ghost predicate Normal(segs: seq<string>, rooted: bool)
  {
    && (forall i :: 0 <= i < |segs| ==> segs[i] != "" && segs[i] != "." && '/' !in segs[i])
    && (forall i :: 0 <= i < |segs| && segs[i] == ".." ==> !rooted)
    && (forall i :: 0 < i < |segs| && segs[i] == ".." ==> segs[i - 1] == "..")
  }

  lemma PushNormal(stack: seq<string>, seg: string, rooted: bool)
    requires Normal(stack, rooted) && '/' !in seg
    ensures Normal(Push(stack, seg, rooted), rooted)
  {
  }

  lemma {:induction false} NormalizeNormal(stack: seq<string>, segs: seq<string>, rooted: bool)
    requires Normal(stack, rooted) && forall s :: s in segs ==> '/' !in s
    ensures Normal(Normalize(stack, segs, rooted), rooted)
    decreases |segs|
  {
    if segs == [] {
    } else {
      PushNormal(stack, segs[0], rooted);
      NormalizeNormal(Push(stack, segs[0], rooted), segs[1..], rooted);
    }
  }

  lemma {:induction false} NormalizeFixed(stack: seq<string>, segs: seq<string>, rooted: bool)
    requires Normal(stack + segs, rooted)
    ensures Normalize(stack, segs, rooted) == stack + segs
    decreases |segs|
  {
    if segs != [] {
      assert (stack + segs)[|stack|] == segs[0];
      if segs[0] == ".." && stack != [] {
        assert (stack + segs)[|stack| - 1] == stack[|stack| - 1];
      }
      assert Push(stack, segs[0], rooted) == stack + [segs[0]];
      assert stack + segs == (stack + [segs[0]]) + segs[1..];
      NormalizeFixed(stack + [segs[0]], segs[1..], rooted);
    } else {
      assert stack + segs == stack;
    }
  }

  lemma {:induction false} SplitElement(s: string, rest: string)
    requires '/' !in s
    ensures Split(s + "/" + rest) == [s] + Split(rest)
    ensures Split(s) == [s]
  {
    if s == "" {
      assert s + "/" + rest == "/" + rest;
      assert (s + "/" + rest)[1..] == rest;
    } else {
      SplitElement(s[1..], rest);
      var t := s + "/" + rest;
      assert t[1..] == s[1..] + "/" + rest;
      assert t[0] == s[0] != '/';
      assert [s[0]] + s[1..] == s;
    }
  }

  lemma {:induction false} SplitJoin(segs: seq<string>)
    requires segs != [] && forall i :: 0 <= i < |segs| ==> '/' !in segs[i]
    ensures Split(Join(segs)) == segs
  {
    if |segs| == 1 {
      SplitElement(segs[0], "");
      assert segs == [segs[0]];
    } else {
      SplitJoin(segs[1..]);
      SplitElement(segs[0], Join(segs[1..]));
      assert segs == [segs[0]] + segs[1..];
    }
  }

  lemma {:induction false} JoinSplit(p: string)
    ensures Join(Split(p)) == p
  {
    if p == "" {
    } else {
      JoinSplit(p[1..]);
      var rest := Split(p[1..]);
      if p[0] != '/' {
        assert Split(p)[1..] == rest[1..];
        assert |rest| > 1 ==> Join(rest) == rest[0] + "/" + Join(rest[1..]);
        assert Join(Split(p)) == [p[0]] + Join(rest);
      } else {
        assert ([""] + rest)[1..] == rest;
        assert Join([""] + rest) == "" + "/" + Join(rest);
      }
      assert p == [p[0]] + p[1..];
    }
  }

  lemma JoinHead(segs: seq<string>)
    requires segs != [] && segs[0] != "" && '/' !in segs[0]
    ensures Join(segs) != "" && Join(segs)[0] == segs[0][0] != '/'
  {
  }

  /** Cleaning a cleaned path changes nothing, so a cleaned name can be written into
      a header and looked up again. */
  lemma CleanIdempotent(p: string)
    ensures Clean(Clean(p)) == Clean(p)
  {
    var rooted := p != "" && p[0] == '/';
    var segs := Normalize([], Split(p), rooted);
    NormalizeNormal([], Split(p), rooted);
    if rooted {
      var c := "/" + Join(segs);
      assert c[1..] == Join(segs);
      assert Split(c) == [""] + Split(Join(segs));
      if segs == [] {
        assert Split(c) == ["", ""];
        assert Normalize([], ["", ""], true) == Normalize([], [""], true) == [];
      } else {
        SplitJoin(segs);
        assert ([""] + segs)[1..] == segs;
        assert Normalize([], [""] + segs, true) == Normalize([], segs, true);
        assert [] + segs == segs;
        NormalizeFixed([], segs, true);
      }
    } else if segs == [] {
      SplitElement(".", "");
      assert Normalize([], ["."], false) == Normalize([], [], false);
    } else {
      JoinHead(segs);
      SplitJoin(segs);
      assert [] + segs == segs;
      NormalizeFixed([], segs, false);
    }
  }

  // ----- What cleaning means -----

  /** The directory reached from `dir` by following the elements of a path; going up from
      the top stays there. */
  function Walk(dir: seq<string>, segs: seq<string>): seq<string>
    decreases |segs|
  {
    if segs == [] then dir
    else if segs[0] == "" || segs[0] == "." then Walk(dir, segs[1..])
    else if segs[0] == ".." then Walk(if dir == [] then [] else dir[..|dir| - 1], segs[1..])
    else Walk(dir + [segs[0]], segs[1..])
  }

  lemma {:induction false} WalkThen(dir: seq<string>, a: seq<string>, b: seq<string>)
    ensures Walk(dir, a + b) == Walk(Walk(dir, a), b)
    decreases |a|
  {
    if a == [] {
      assert a + b == b;
    } else {
      assert (a + b)[1..] == a[1..] + b && (a + b)[0] == a[0];
      var next := if a[0] == "" || a[0] == "." then dir
                  else if a[0] != ".." then dir + [a[0]]
                  else if dir == [] then [] else dir[..|dir| - 1];
      WalkThen(next, a[1..], b);
    }
  }

  /** Names only, below some number of steps up. */
  ghost predicate UpThenDown(segs: seq<string>)
  {
    && (forall i :: 0 <= i < |segs| ==> segs[i] != "" && segs[i] != ".")
    && (forall i :: 0 < i < |segs| && segs[i] == ".." ==> segs[i - 1] == "..")
  }

  lemma PushWalks(dir: seq<string>, stack: seq<string>, seg: string, rooted: bool)
    requires rooted ==> dir == [] && forall i :: 0 <= i < |stack| ==> stack[i] != ".."
    requires UpThenDown(stack)
    ensures Walk(dir, Push(stack, seg, rooted)) == Walk(Walk(dir, stack), [seg])
  {
    WalkThen(dir, stack, [seg]);
    if seg == ".." && stack != [] && stack[|stack| - 1] != ".." {
      var n := |stack| - 1;
      assert stack == stack[..n] + [stack[n]];
      WalkThen(dir, stack[..n], [stack[n]]);
    }
  }

  lemma {:induction false} NormalizeWalks(dir: seq<string>, stack: seq<string>, segs: seq<string>, rooted: bool)
    requires Normal(stack, rooted) && (rooted ==> dir == []) && forall s :: s in segs ==> '/' !in s
    ensures Walk(dir, Normalize(stack, segs, rooted)) == Walk(Walk(dir, stack), segs)
    decreases |segs|
  {
    if segs == [] {
    } else {
      var pushed := Push(stack, segs[0], rooted);
      PushNormal(stack, segs[0], rooted);
      PushWalks(dir, stack, segs[0], rooted);
      hide Push, Walk, Normal;
      NormalizeWalks(dir, pushed, segs[1..], rooted);
      assert segs == [segs[0]] + segs[1..];
      WalkThen(Walk(dir, stack), [segs[0]], segs[1..]);
    }
  }

  predicate Rooted(p: string)
  {
    p != "" && p[0] == '/'
  }

  /** The cleaned path leads where the path led: from every directory if it is relative,
      from the root if it is not, and which of the two it is does not change. */
  lemma CleanKeepsPlace(p: string, dir: seq<string>)
    requires Rooted(p) ==> dir == []
    ensures Walk(dir, Split(Clean(p))) == Walk(dir, Split(p))
    ensures Rooted(Clean(p)) <==> Rooted(p)
  {
    var rooted := Rooted(p);
    var segs := Normalize([], Split(p), rooted);
    NormalizeNormal([], Split(p), rooted);
    NormalizeWalks(dir, [], Split(p), rooted);
    CleanSplits(p);
    WalkThen(dir, if rooted then [""] else [], segs);
  }

  /** The cleaned path has no element left to simplify. */
  lemma CleanSplits(p: string)
    ensures var segs := Normalize([], Split(p), Rooted(p));
            && Normal(segs, Rooted(p))
            && Split(Clean(p)) == (if Rooted(p) then if segs == [] then ["", ""] else [""] + segs
                                   else if segs == [] then ["."] else segs)
            && (Rooted(Clean(p)) <==> Rooted(p))
  {
    var segs := Normalize([], Split(p), Rooted(p));
    NormalizeNormal([], Split(p), Rooted(p));
    if segs != [] {
      SplitJoin(segs);
      JoinHead(segs);
    }
    if Rooted(p) {
      var c := "/" + Join(segs);
      assert c[1..] == Join(segs);
      assert Split(c) == [""] + Split(Join(segs));
    } else {
      SplitElement(".", "");
    }
  }

  /** Leading steps up. */
  function Ups(segs: seq<string>): (n: nat)
    ensures n <= |segs|
  {
    if segs == [] || segs[0] != ".." then 0 else 1 + Ups(segs[1..])
  }

  lemma {:induction false} WalkNames(dir: seq<string>, segs: seq<string>)
    requires forall i :: 0 <= i < |segs| ==> segs[i] != "" && segs[i] != "." && segs[i] != ".."
    ensures Walk(dir, segs) == dir + segs
    decreases |segs|
  {
    if segs == [] {
    } else {
      WalkNames(dir + [segs[0]], segs[1..]);
      assert dir + segs == (dir + [segs[0]]) + segs[1..];
    }
  }

  lemma {:induction false} NamesAfterUps(segs: seq<string>)
    requires UpThenDown(segs)
    ensures forall i :: Ups(segs) <= i < |segs| ==> segs[i] != ".."
  {
    if segs == [] {
    } else if segs[0] == ".." {
      var rest := segs[1..];
      assert forall i :: 0 <= i < |rest| ==> rest[i] == segs[i + 1];
      NamesAfterUps(rest);
      assert forall i :: Ups(segs) <= i < |segs| ==> segs[i] == rest[i - 1];
    } else {
      NoUpsAfter(segs, |segs|);
    }
  }

  lemma {:induction false} NoUpsAfter(segs: seq<string>, n: nat)
    requires UpThenDown(segs) && segs != [] && segs[0] != ".." && n <= |segs|
    ensures forall i :: 0 <= i < n ==> segs[i] != ".."
  {
    if n == 0 {
    } else {
      NoUpsAfter(segs, n - 1);
      assert n > 1 ==> segs[n - 2] != "..";
    }
  }

  /** Enough steps up to take and nothing left to simplify. */
  lemma {:induction false} WalkNormal(dir: seq<string>, segs: seq<string>)
    requires UpThenDown(segs) && Ups(segs) <= |dir|
    ensures Walk(dir, segs) == dir[..|dir| - Ups(segs)] + segs[Ups(segs)..]
    decreases |segs|
  {
    NamesAfterUps(segs);
    if segs == [] || segs[0] != ".." {
      assert dir[..|dir|] == dir;
      WalkNames(dir, segs);
    } else {
      var up, rest := dir[..|dir| - 1], segs[1..];
      assert forall i :: 0 <= i < |rest| ==> rest[i] == segs[i + 1];
      WalkNormal(up, rest);
      assert up[..|up| - Ups(rest)] == dir[..|dir| - Ups(segs)] && rest[Ups(rest)..] == segs[Ups(segs)..];
    }
  }

  function Longest(ss: seq<string>): nat
  {
    if ss == [] then 0 else if |ss[0]| > Longest(ss[1..]) then |ss[0]| else Longest(ss[1..])
  }

  lemma {:induction false} LongestBounds(ss: seq<string>, i: nat)
    requires i < |ss|
    ensures |ss[i]| <= Longest(ss)
  {
    if i == 0 {
    } else {
      LongestBounds(ss[1..], i - 1);
    }
  }

  /** A name that occurs in neither path. */
  lemma NewName(a: seq<string>, b: seq<string>) returns (name: string)
    ensures name !in a && name !in b
  {
    name := seq(Longest(a) + Longest(b) + 1, _ => 'x');
    forall i | 0 <= i < |a| ensures a[i] != name {
      LongestBounds(a, i);
    }
    forall i | 0 <= i < |b| ensures b[i] != name {
      LongestBounds(b, i);
    }
  }

  /** How often a path starts with this name. */
  function Lead(segs: seq<string>, name: string): nat
  {
    if segs == [] || segs[0] != name then 0 else 1 + Lead(segs[1..], name)
  }

  lemma {:induction false} LeadOf(dir: seq<string>, a: seq<string>, name: string)
    requires (forall i :: 0 <= i < |dir| ==> dir[i] == name) && name !in a
    ensures Lead(dir + a, name) == |dir|
  {
    if dir == [] {
      assert dir + a == a;
    } else {
      LeadOf(dir[1..], a, name);
      assert (dir + a)[1..] == dir[1..] + a;
    }
  }

  /** Two paths with nothing left to simplify that lead the same way from everywhere are one. */
  lemma NormalUnique(a: seq<string>, b: seq<string>)
    requires UpThenDown(a) && UpThenDown(b) && SameWay(a, b)
    ensures a == b
  {
    var name := NewName(a, b);
    var dir := seq(|a| + |b|, _ => name);
    WalkNormal(dir, a);
    WalkNormal(dir, b);
    var n, m := |dir| - Ups(a), |dir| - Ups(b);
    LeadOf(dir[..n], a[Ups(a)..], name);
    LeadOf(dir[..m], b[Ups(b)..], name);
    assert a[Ups(a)..] == (dir[..n] + a[Ups(a)..])[n..] && b[Ups(b)..] == (dir[..m] + b[Ups(b)..])[m..];
    SameUps(a, b);
  }

  lemma {:induction false} AllUps(segs: seq<string>, i: nat)
    requires i < Ups(segs)
    ensures segs[i] == ".."
  {
    if i == 0 {
    } else {
      AllUps(segs[1..], i - 1);
    }
  }

  lemma SameUps(a: seq<string>, b: seq<string>)
    requires Ups(a) == Ups(b) && a[Ups(a)..] == b[Ups(b)..]
    ensures a == b
  {
    forall i | 0 <= i < Ups(a) ensures a[i] == b[i] {
      AllUps(a, i);
      AllUps(b, i);
    }
    assert a == a[..Ups(a)] + a[Ups(a)..] && b == b[..Ups(b)] + b[Ups(b)..];
    assert a[..Ups(a)] == b[..Ups(b)];
  }

  /** Both lead to the same place, wherever one starts. */
  ghost predicate SameWay(a: seq<string>, b: seq<string>)
  {
    forall dir :: Walk(dir, a) == Walk(dir, b)
  }

  lemma ElementsKeepPlace(p: string, dir: seq<string>)
    requires !Rooted(p)
    ensures Walk(dir, Normalize([], Split(p), false)) == Walk(dir, Split(p))
  {
    NormalizeWalks(dir, [], Split(p), false);
  }

  lemma SameElementsSameClean(p: string, q: string)
    requires !Rooted(p) && !Rooted(q) && Normalize([], Split(p), false) == Normalize([], Split(q), false)
    ensures Clean(p) == Clean(q)
  {
  }

  /** Relative paths clean to the same exactly when they lead the same way from everywhere. */
  lemma CleanSameIff(p: string, q: string)
    requires !Rooted(p) && !Rooted(q)
    ensures Clean(p) == Clean(q) <==> SameWay(Split(p), Split(q))
  {
    var a, b := Normalize([], Split(p), false), Normalize([], Split(q), false);
    NormalizeNormal([], Split(p), false);
    NormalizeNormal([], Split(q), false);
    assert UpThenDown(a) && UpThenDown(b);
    hide Walk, Split, Normalize, Clean;
    if Clean(p) == Clean(q) {
      forall dir ensures Walk(dir, Split(p)) == Walk(dir, Split(q)) {
        CleanKeepsPlace(p, dir);
        CleanKeepsPlace(q, dir);
      }
    }
    if SameWay(Split(p), Split(q)) {
      forall dir ensures Walk(dir, a) == Walk(dir, b) {
        ElementsKeepPlace(p, dir);
        ElementsKeepPlace(q, dir);
      }
      NormalUnique(a, b);
      SameElementsSameClean(p, q);
    }
  }

  // ----- Paths a comparison ignores -----

  predicate Contains(s: string, part: string)
  {
    part <= s || (s != "" && Contains(s[1..], part))
  }

  predicate HasSuffix(s: string, part: string)
  {
    |part| <= |s| && s[|s| - |part|..] == part
  }

  /** Paths a volume comparison ignores: Litestream's shadow WAL directories. */
  predicate ExcludePath(name: string)
  {
    Contains(name, "-litestream/") || HasSuffix(name, "-litestream")
  }

  lemma HasSuffixIff(s: string, part: string)
    ensures HasSuffix(s, part) <==> exists a :: s == a + part
  {
    if HasSuffix(s, part) {
      assert s == s[..|s| - |part|] + part;
    }
  }

  lemma {:induction false} ContainsIff(s: string, part: string)
    ensures Contains(s, part) <==> exists a, b :: s == a + part + b
  {
    if part <= s {
      assert s == "" + part + s[|part|..];
    } else if s == "" {
      assert forall a, b :: |a + part + b| == |a| + |part| + |b|;
    } else {
      ContainsIff(s[1..], part);
      if Contains(s[1..], part) {
        var a, b :| s[1..] == a + part + b;
        assert s == ([s[0]] + a) + part + b;
      }
      if a, b :| s == a + part + b {
        assert a != "" by {
          assert a == "" ==> part <= s;
        }
        assert s[1..] == a[1..] + part + b;
      }
    }
  }

  /** `end` is in `p` after `a`, and there ends it or an element of it. */
  predicate Cut(p: string, a: string, end: string, b: string)
  {
    p == a + end + b && (b == "" || b[0] == '/')
  }

  lemma EndsElement(p: string, end: string)
    ensures Contains(p, end + "/") || HasSuffix(p, end) <==> exists a, b :: Cut(p, a, end, b)
  {
    var slashed := end + "/";
    ContainsIff(p, slashed);
    HasSuffixIff(p, end);
    hide Contains, HasSuffix;
    if Contains(p, slashed) {
      var a, b :| p == a + slashed + b;
      assert Cut(p, a, end, "/" + b);
    }
    if HasSuffix(p, end) {
      var a :| p == a + end;
      assert Cut(p, a, end, "");
    }
    if a, b :| Cut(p, a, end, b) {
      if b == "" {
        assert p == a + end;
      } else {
        assert p == a + slashed + b[1..];
      }
    }
  }

  /** A path is ignored exactly when "-litestream" ends it or comes before a slash. */
  lemma IgnoredTextIff(p: string)
    ensures ExcludePath(p) <==> exists a, b :: Cut(p, a, "-litestream", b)
  {
    EndsElement(p, "-litestream");
    assert "-litestream" + "/" == "-litestream/";
    hide Contains, HasSuffix, Cut;
  }

  /** The first element of a path is what comes before its first slash. */
  lemma {:induction false} FirstElement(p: string, s: string)
    requires '/' !in s
    ensures Split(p)[0] == s <==> p == s || s + "/" <= p
  {
    if p == "" || p[0] == '/' {
    } else {
      FirstElement(p[1..], if s == "" then "" else s[1..]);
      if s != "" {
        assert [s[0]] + s[1..] == s && [p[0]] + p[1..] == p;
        assert s + "/" <= p <==> s[0] == p[0] && s[1..] + "/" <= p[1..];
      }
    }
  }

  /** Some element of the path ends so. */
  ghost predicate HasElement(p: string, end: string)
  {
    exists k :: 0 <= k < |Split(p)| && HasSuffix(Split(p)[k], end)
  }

  lemma HasElementNext(p: string, end: string)
    requires p != "" && end != ""
    ensures HasElement(p, end) <==>
            HasElement(p[1..], end) || (p[0] != '/' && Split(p)[0] == end)
  {
    var segs, rest := Split(p), Split(p[1..]);
    if p[0] == '/' {
      assert forall k :: 0 <= k < |rest| ==> segs[k + 1] == rest[k];
      if HasElement(p, end) {
        var k :| 0 <= k < |segs| && HasSuffix(segs[k], end);
        assert segs[k] == rest[k - 1];
      }
    } else {
      assert segs[0] == [p[0]] + rest[0];
      assert forall k :: 0 < k < |rest| ==> segs[k] == rest[k];
      SuffixNext(segs[0], end);
      assert segs[0][1..] == rest[0];
      if HasElement(p[1..], end) {
        var k :| 0 <= k < |rest| && HasSuffix(rest[k], end);
        assert HasSuffix(segs[k], end);
      }
    }
  }

  lemma SuffixNext(s: string, part: string)
    requires s != ""
    ensures HasSuffix(s, part) <==> HasSuffix(s[1..], part) || s == part
  {
    if |part| < |s| {
      assert s[|s| - |part|..] == s[1..][|s| - 1 - |part|..];
    }
  }

  /** A path is ignored exactly when one of its elements ends in "-litestream". */
  lemma {:induction false} IgnoredIff(p: string)
    ensures ExcludePath(p) <==> HasElement(p, "-litestream")
  {
    var end := "-litestream";
    if p == "" {
    } else {
      IgnoredIff(p[1..]);
      HasElementNext(p, end);
      SuffixNext(p, end);
      FirstElement(p, end);
      assert end + "/" == "-litestream/";
    }
  }

  /** `dir` is a directory on the way to `p`. */
  predicate IsAncestor(dir: string, p: string)
  {
    0 < |dir| < |p| && p[..|dir|] == dir && p[|dir|] == '/'
  }

  lemma IsAncestorIff(dir: string, p: string)
    ensures IsAncestor(dir, p) <==> dir != "" && exists rest :: p == dir + "/" + rest
  {
    if IsAncestor(dir, p) {
      assert p == dir + "/" + p[|dir| + 1..];
    }
  }
}
