/** What the comparison of two volumes sees, told without their fingerprints. */
module Comparison {
  import opened Paths
  import opened Manifests
  import opened TarMeaning
  import opened TarReexport

  /** Litestream's shadow files may settle between two exports of one volume. */
  ghost predicate Shadow(path: string)
  {
    HasElement(path, "-litestream")
  }

  /** Same kind; same bytes if they are files, same target if they are links. */
  predicate Alike(e: Entry, f: Entry)
  {
    && e.flag == f.flag
    && (e.flag == REG ==> e.body == f.body)
    && (e.flag == LINK || e.flag == SYMLINK ==> e.link == f.link)
  }

  lemma InfoIff(e: Entry, f: Entry)
    ensures Info(e) == Info(f) <==> Alike(e, f)
  {
  }

  /** Every path but a shadow is fingerprinted. */
  lemma ComparedIff(es: seq<Entry>, k: string)
    ensures k in BuildManifest(es) <==> !Shadow(k) && Holds(es, |es|, k)
  {
    BuildManifestKeys(es);
    IgnoredIff(k);
    hide Clean, ExcludePath, BuildManifest;
    if i :| 0 <= i < |es| && es[i].Path() == k {
      assert Holds(es, |es|, k);
    }
  }

  /** Outside the shadows, one volume has what the other has. */
  ghost predicate SameVolume(a: seq<Entry>, b: seq<Entry>)
  {
    && (forall k :: !Shadow(k) ==> (Holds(a, |a|, k) <==> Holds(b, |b|, k)))
    && (forall i, j :: 0 <= i < |a| && 0 <= j < |b| && a[i].Path() == b[j].Path() && !Shadow(a[i].Path()) ==>
          Alike(a[i], b[j]))
  }

  lemma Fingerprint(es: seq<Entry>, i: nat)
    requires DistinctPaths(es) && i < |es| && !Shadow(es[i].Path())
    ensures es[i].Path() in BuildManifest(es) && BuildManifest(es)[es[i].Path()] == Info(es[i])
  {
    IgnoredIff(es[i].Path());
    RecordedWhole(es, i);
  }

  /** Two exports compare equal exactly when they are of the same volume. */
  lemma CompareEqualIff(a: seq<Entry>, b: seq<Entry>)
    requires DistinctPaths(a) && DistinctPaths(b)
    ensures BuildManifest(a) == BuildManifest(b) <==> SameVolume(a, b)
  {
    hide Clean, BuildManifest, DistinctPaths, Info, Alike, Shadow;
    var m, n := BuildManifest(a), BuildManifest(b);
    forall k ensures (k in m <==> !Shadow(k) && Holds(a, |a|, k)) && (k in n <==> !Shadow(k) && Holds(b, |b|, k)) {
      ComparedIff(a, k);
      ComparedIff(b, k);
    }
    forall i, j | 0 <= i < |a| && 0 <= j < |b| && a[i].Path() == b[j].Path() && !Shadow(a[i].Path())
      ensures m[a[i].Path()] == n[a[i].Path()] <==> Alike(a[i], b[j])
    {
      Fingerprint(a, i);
      Fingerprint(b, j);
      InfoIff(a[i], b[j]);
    }
    if SameVolume(a, b) {
      forall k | k in m ensures m[k] == n[k] {
        var i :| 0 <= i < |a| && a[i].Path() == k;
        assert Holds(b, |b|, k);
        var j :| 0 <= j < |b| && b[j].Path() == k;
      }
      assert m.Keys == n.Keys;
    }
  }

  /** A file that came back with other bytes is always noticed. */
  lemma CorruptionIsSeen(a: seq<Entry>, b: seq<Entry>, i: nat, j: nat)
    requires DistinctPaths(a) && DistinctPaths(b) && i < |a| && j < |b|
    requires a[i].flag == REG && b[j].flag == REG && a[i].Path() == b[j].Path() && !Shadow(a[i].Path())
    requires a[i].body != b[j].body
    ensures BuildManifest(a) != BuildManifest(b)
  {
    hide Clean, BuildManifest, Shadow;
    CompareEqualIff(a, b);
  }
}
