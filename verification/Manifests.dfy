/** Tar entries, the fingerprint ("manifest") the daemon takes of a volume's tar
    stream, and the comparison of two fingerprints. A digest is modelled by the bytes
    it is taken of, i.e. the hash is taken to be injective. */
module Manifests {
  import opened Paths
  import Sorting

  type Bytes = seq<bv8>

  // Type flags of the ustar interchange format.
  const REG := '0'
  const LINK := '1'
  const SYMLINK := '2'
  const DIR := '5'

  /** A tar header and, for a regular file, its body. */
  datatype Entry = Entry(name: string, flag: char, link: string, body: Bytes) {
    function Path(): string { Clean(name) }

    /** Only regular files carry bytes in the stream. */
    function Payload(): Bytes { if flag == REG then body else [] }
  }

  datatype FileInfo = FileInfo(typ: char, size: nat, digest: Bytes, link: string)

  type Manifest = map<string, FileInfo>

  function Info(e: Entry): FileInfo
  {
    if e.flag == REG then FileInfo(REG, |e.body|, e.body, "")
    else if e.flag == SYMLINK || e.flag == LINK then FileInfo(e.flag, 0, [], e.link)
    else FileInfo(e.flag, 0, [], "")
  }

  function Record(m: Manifest, e: Entry): Manifest
  {
    if ExcludePath(e.Path()) then m else m[e.Path() := Info(e)]
  }

  /** The fingerprint of a whole stream: last entry wins, ignored paths left out. */
  function BuildManifest(es: seq<Entry>): Manifest
  {
    if es == [] then map[] else Record(BuildManifest(es[..|es| - 1]), es[|es| - 1])
  }

  lemma BuildNext(es: seq<Entry>, e: Entry)
    ensures BuildManifest(es + [e]) == Record(BuildManifest(es), e)
  {
  }

  /** The comparison-relevant part of a manifest. */
  function Strip(m: Manifest): Manifest
  {
    map k | k in m && !ExcludePath(k) :: m[k]
  }

  lemma {:induction false} BuildManifestKeys(es: seq<Entry>)
    ensures forall k :: k in BuildManifest(es) <==> !ExcludePath(k) && exists i :: 0 <= i < |es| && es[i].Path() == k
    ensures Strip(BuildManifest(es)) == BuildManifest(es)
  {
    hide Clean, ExcludePath;
    if es == [] {
    } else {
      var n := |es| - 1;
      BuildManifestKeys(es[..n]);
      forall k ensures k in BuildManifest(es) <==> !ExcludePath(k) && exists i :: 0 <= i < |es| && es[i].Path() == k {
        if k in BuildManifest(es[..n]) {
          var i :| 0 <= i < n && es[..n][i].Path() == k;
          assert es[i].Path() == k;
        }
        if !ExcludePath(k) && exists i :: 0 <= i < |es| && es[i].Path() == k {
          var i :| 0 <= i < |es| && es[i].Path() == k;
          if i < n {
            assert es[..n][i].Path() == k;
          }
        }
      }
    }
  }

  ghost predicate DiffersAt(a: Manifest, b: Manifest, k: string)
  {
    (k in a) != (k in b) || (k in a && a[k] != b[k])
  }

  /** Every path of either manifest, ascending. */
  method SortedPaths(m: Manifest, other: Manifest) returns (keys: seq<string>)
    ensures forall k :: k in keys <==> k in m || k in other
    ensures Ascending(keys)
  {
    keys := [];
    var todo := m.Keys;
    while todo != {}
      invariant forall k :: k in keys <==> k in m && k !in todo
      invariant todo <= m.Keys
    {
      var k :| k in todo;
      todo := todo - {k};
      keys := keys + [k];
    }
    todo := other.Keys - m.Keys;
    while todo != {}
      invariant forall k :: k in keys <==> (k in m || k in other) && k !in todo
      invariant todo <= other.Keys - m.Keys
    {
      var k :| k in todo;
      todo := todo - {k};
      keys := keys + [k];
    }
    Sorting.SortStrings(keys);
    keys := Sorting.Sort(keys, Sorting.Leq);
  }

  ghost predicate Ascending(keys: seq<string>)
  {
    forall i, j :: 0 <= i <= j < |keys| ==> Sorting.Leq(keys[i], keys[j])
  }

  lemma FirstIsLeast(m: Manifest, other: Manifest, keys: seq<string>, i: nat)
    requires Ascending(keys) && i < |keys|
    requires forall k :: k in keys <==> k in m || k in other
    requires forall j :: 0 <= j < i ==> !DiffersAt(m, other, keys[j])
    ensures forall k :: DiffersAt(m, other, k) ==> Sorting.Leq(keys[i], k)
  {
  }

  lemma SameEverywhere(m: Manifest, other: Manifest)
    requires forall k :: k in m || k in other ==> !DiffersAt(m, other, k)
    ensures m == other
  {
  }

  /** Reports equality exactly when the manifests are equal, and otherwise names the
      least path at which they differ. */
  method FirstDiff(m: Manifest, other: Manifest) returns (diff: string, equal: bool)
    ensures equal <==> m == other
    ensures equal ==> diff == ""
    ensures !equal ==> DiffersAt(m, other, diff) && forall k :: DiffersAt(m, other, k) ==> Sorting.Leq(diff, k)
  {
    var keys := SortedPaths(m, other);
    for i := 0 to |keys|
      invariant forall j :: 0 <= j < i ==> !DiffersAt(m, other, keys[j])
    {
      var k := keys[i];
      if (k in m) != (k in other) || (k in m && m[k] != other[k]) {
        FirstIsLeast(m, other, keys, i);
        return k, false;
      }
    }
    SameEverywhere(m, other);
    return "", true;
  }
}
