/** Who is backed up, told in the terms of a template author and an operator: lists of
    declarations, names on a host, words in a marker, rows of earlier backups. */
module BackupPolicy {
  import opened BackupScope
  import opened Backups

  predicate Declares(i: Instance, s: string)
  {
    exists k :: 0 <= k < |i.volumes| && i.volumes[k].name == s
  }

  /** The last declaration of a name is the one that decides. */
  predicate Decides(vs: seq<Declared>, k: nat, s: string)
  {
    k < |vs| && vs[k].name == s && forall j :: k < j < |vs| ==> vs[j].name != s
  }

  predicate AppliedWith(i: Instance, s: string)
  {
    i.applied.Known? && s in i.applied.names
  }

  predicate OnHost(i: Instance, h: Host, s: string)
  {
    i.prefix + s in h.present
  }

  /** The declaration says none; or there is none any more, and what the volume was applied
      with said so. */
  ghost predicate SaidNone(i: Instance, s: string)
  {
    if Declares(i, s) then exists k: nat :: Decides(i.volumes, k, s) && SaysNone(i.volumes[k].meta.marker)
    else s in i.appliedMeta && SaysNone(i.appliedMeta[s].marker)
  }

  lemma {:induction false} LastDeclarationWins(vs: seq<Declared>, k: nat, s: string)
    requires Decides(vs, k, s)
    ensures s in DeclaredMeta(vs) && DeclaredMeta(vs)[s] == vs[k].meta
  {
    var n := |vs| - 1;
    if k == n {
    } else {
      assert forall j :: 0 <= j < n ==> vs[..n][j] == vs[j];
      LastDeclarationWins(vs[..n], k, s);
      assert vs[n].name != s;
    }
  }

  lemma {:induction false} SomeDeclarationDecides(vs: seq<Declared>, s: string) returns (k: nat)
    requires exists j :: 0 <= j < |vs| && vs[j].name == s
    ensures Decides(vs, k, s)
  {
    var n := |vs| - 1;
    if vs[n].name == s {
      k := n;
    } else {
      var j :| 0 <= j < |vs| && vs[j].name == s;
      assert vs[..n][j].name == s;
      k := SomeDeclarationDecides(vs[..n], s);
      assert forall j :: 0 <= j < n ==> vs[..n][j] == vs[j];
    }
  }

  lemma OneDecides(vs: seq<Declared>, j: nat, k: nat, s: string)
    requires Decides(vs, j, s) && Decides(vs, k, s)
    ensures j == k
  {
  }

  lemma DeclaredIff(i: Instance, s: string)
    ensures s in DeclaredNames(i) <==> Declares(i, s)
  {
    DeclaredMetaKeys(i.volumes);
  }

  lemma VetoedIff(i: Instance, s: string)
    ensures Vetoed(i, s) <==> SaidNone(i, s)
  {
    DeclaredIff(i, s);
    hide IsNone, SaysNone;
    if Declares(i, s) {
      var k := SomeDeclarationDecides(i.volumes, s);
      LastDeclarationWins(i.volumes, k, s);
      IsNoneIff(i.volumes[k].meta.marker);
      forall j | Decides(i.volumes, j, s) ensures j == k {
        OneDecides(i.volumes, j, k, s);
      }
    } else if s in i.appliedMeta {
      IsNoneIff(i.appliedMeta[s].marker);
    } else {
      UnmarkedIsNotNone();
    }
  }

  /** An unscoped backup is meant to record a volume exactly when it is declared or was
      applied, is on the host, and is not marked none. */
  lemma CapturedIff(i: Instance, h: Host, s: string)
    ensures s in Captured(i, h) <==> (Declares(i, s) || AppliedWith(i, s)) && OnHost(i, h, s) && !SaidNone(i, s)
  {
    DeclaredIff(i, s);
    VetoedIff(i, s);
    hide Vetoed, SaidNone, Declares, DeclaredNames;
  }

  /** A scope is admitted exactly when the deciding declaration of each of its volumes does
      not say none and the volume is on the host. */
  lemma ScopeAdmittedIff(i: Instance, h: Host, scope: seq<string>)
    ensures ScopedAllowed(i, h, scope) <==>
            forall s :: s in scope ==> Declares(i, s) && !SaidNone(i, s) && OnHost(i, h, s)
  {
    forall s ensures (s in DeclaredNames(i) <==> Declares(i, s)) && (Vetoed(i, s) <==> SaidNone(i, s)) {
      DeclaredIff(i, s);
      VetoedIff(i, s);
    }
    hide Vetoed, SaidNone, Declares, DeclaredNames;
  }

  /** Some earlier backup that completed holds the volume. */
  ghost predicate WasBackedUp(i: Instance, history: seq<BackupRow>, s: string)
  {
    exists k :: 0 <= k < |history| && history[k].complete && i.prefix + s in history[k].volumes
  }

  ghost predicate HasData(i: Instance, h: Host)
  {
    exists s :: (Declares(i, s) || AppliedWith(i, s)) && OnHost(i, h, s)
  }

  ghost predicate WouldRecord(i: Instance, h: Host)
  {
    exists s :: (Declares(i, s) || AppliedWith(i, s)) && OnHost(i, h, s) && !SaidNone(i, s)
  }

  ghost predicate CouldRecord(i: Instance)
  {
    exists s :: (Declares(i, s) || AppliedWith(i, s)) && !SaidNone(i, s)
  }

  lemma CorroboratedIff(i: Instance, history: seq<BackupRow>, s: string)
    ensures Corroborated(i, history, s) <==> WasBackedUp(i, history, s)
  {
    if b :| b in history && b.complete && Full(i, s) in b.volumes {
      var k :| 0 <= k < |history| && history[k] == b;
      assert i.prefix + s in history[k].volumes;
    }
    if WasBackedUp(i, history, s) {
      var k :| 0 <= k < |history| && history[k].complete && i.prefix + s in history[k].volumes;
      assert history[k] in history;
    }
  }

  /** An unscoped backup of an instance with data is admitted exactly when its template
      declares something and there is something to record. Of one without data, it is
      admitted exactly when nothing it was applied with is known to have been lost, and the
      template declares nothing or something that could be recorded. */
  lemma UnscopedAdmittedIff(i: Instance, h: Host, history: seq<BackupRow>)
    ensures UnscopedAllowed(i, h, history) <==>
            if HasData(i, h) then i.volumes != [] && WouldRecord(i, h)
            else (i.volumes == [] || CouldRecord(i)) && forall s :: AppliedWith(i, s) ==> !WasBackedUp(i, history, s)
  {
    PolicyTerms(i, h, history);
    assert DeclaredNames(i) == {} <==> i.volumes == [] by {
      if i.volumes != [] {
        DeclaredIff(i, i.volumes[0].name);
      }
    }
    assert HasData(i, h) <==> Holding(i, h) != {} by {
      if HasData(i, h) {
        var s :| (Declares(i, s) || AppliedWith(i, s)) && OnHost(i, h, s);
        assert s in Holding(i, h);
      }
      if s :| s in Holding(i, h) {
        assert Declares(i, s) || AppliedWith(i, s);
      }
    }
    assert WouldRecord(i, h) <==> Captured(i, h) != {} by {
      if WouldRecord(i, h) {
        var s :| (Declares(i, s) || AppliedWith(i, s)) && OnHost(i, h, s) && !SaidNone(i, s);
        CapturedIff(i, h, s);
      }
      if s :| s in Captured(i, h) {
        CapturedIff(i, h, s);
      }
    }
    hide Captured, Holding, WouldRecord, HasData, Vetoed, SaidNone, Corroborated, WasBackedUp, DeclaredNames, Declares;
    assert CouldRecord(i) <==> exists s :: s in KnownNames(i) && !Vetoed(i, s) by {
      if CouldRecord(i) {
        var s :| (Declares(i, s) || AppliedWith(i, s)) && !SaidNone(i, s);
        assert s in KnownNames(i);
      }
    }
    hide CouldRecord;
  }

  lemma PolicyTerms(i: Instance, h: Host, history: seq<BackupRow>)
    ensures forall s :: s in DeclaredNames(i) <==> Declares(i, s)
    ensures forall s :: Vetoed(i, s) <==> SaidNone(i, s)
    ensures forall s :: Corroborated(i, history, s) <==> WasBackedUp(i, history, s)
  {
    hide *;
    forall s ensures s in DeclaredNames(i) <==> Declares(i, s) {
      DeclaredIff(i, s);
    }
    forall s ensures Vetoed(i, s) <==> SaidNone(i, s) {
      VetoedIff(i, s);
    }
    forall s ensures Corroborated(i, history, s) <==> WasBackedUp(i, history, s) {
      CorroboratedIff(i, history, s);
    }
  }
}
