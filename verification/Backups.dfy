/** Admission and export of a snapshot backup. */
module Backups {
  import opened Sorting
  import opened BackupScope

  /** Whether anything could be exported, judged without asking the host. */
  method AnyExportableVolume(i: Instance) returns (any: bool)
    ensures any <==> exists s :: s in KnownNames(i) && !Vetoed(i, s)
  {
    hide IsNone;
    UnmarkedIsNotNone();
    var declared := DeclaredMeta(i.volumes);
    var todo := declared.Keys;
    while todo != {}
      invariant todo <= declared.Keys
      invariant forall s :: s in declared && s !in todo ==> Vetoed(i, s)
    {
      var s :| s in todo;
      todo := todo - {s};
      if !IsNone(declared[s].marker) {
        assert s in KnownNames(i) && !Vetoed(i, s);
        return true;
      }
    }
    var applied := AppliedNames(i);
    for k := 0 to |applied|
      invariant forall j :: 0 <= j < k ==> Vetoed(i, applied[j])
    {
      var s := applied[k];
      if s in declared {
        continue;
      }
      if s in i.appliedMeta && IsNone(i.appliedMeta[s].marker) {
        continue;
      }
      assert s in KnownNames(i) && !Vetoed(i, s);
      return true;
    }
    return false;
  }

  /** Which of the lost volumes an earlier complete backup holds, in order. */
  method AppliedLossCorroborated(i: Instance, lost: seq<string>, history: seq<BackupRow>) returns (names: seq<string>)
    ensures forall s :: s in names <==> s in lost && Corroborated(i, history, s)
    ensures forall a, b :: 0 <= a <= b < |names| ==> Leq(names[a], names[b])
  {
    names := [];
    for k := 0 to |history|
      invariant forall s :: s in names <==> s in lost && Corroborated(i, history[..k], s)
    {
      ghost var before := names;
      var b := history[k];
      assert history[..k + 1] == history[..k] + [b];
      if b.complete {
        for v := 0 to |lost|
          invariant forall s :: s in names <==> s in before || (s in lost[..v] && Full(i, s) in b.volumes)
        {
          if Full(i, lost[v]) in b.volumes && lost[v] !in names {
            names := names + [lost[v]];
          }
        }
        assert lost[..|lost|] == lost;
      }
      forall s
        ensures Corroborated(i, history[..k + 1], s) <==>
                Corroborated(i, history[..k], s) || (b.complete && Full(i, s) in b.volumes)
      {
        assert b in history[..k + 1];
      }
    }
    assert history[..|history|] == history;
    SortStrings(names);
    names := Sort(names, Leq);
  }

  datatype Check = Accepted(vols: seq<string>, meta: map<string, VolMeta>) | Refused | HostFailed

  /** The half of the admission that the store alone can answer. */
  ghost predicate DeclaredAllowed(i: Instance, scope: seq<string>)
  {
    if scope == [] then DeclaredNames(i) == {} || exists s :: s in KnownNames(i) && !Vetoed(i, s)
    else forall s :: s in scope ==> s in DeclaredNames(i) && !Vetoed(i, s)
  }

  ghost predicate Allowed(i: Instance, h: Host, history: seq<BackupRow>, scope: seq<string>)
  {
    if scope == [] then UnscopedAllowed(i, h, history) else ScopedAllowed(i, h, scope)
  }

  /** The host can be asked about the volumes a backup of this scope is decided by: the
      declared ones, and without a scope those it was applied with too. */
  ghost predicate Answering(i: Instance, h: Host, scope: seq<string>)
  {
    if scope == [] then Reachable(i, h) else DeclaredReachable(i, h)
  }

  ghost predicate Admitted(i: Instance, h: Host, history: seq<BackupRow>, scope: seq<string>)
  {
    Answering(i, h, scope) && Allowed(i, h, history, scope)
  }

  /** What the export loop is handed. */
  ghost predicate Resolved(i: Instance, h: Host, scope: seq<string>, vols: seq<string>, meta: map<string, VolMeta>)
  {
    && (DistinctVolumes(i) ==> Distinct(vols))
    && (scope == [] ==> (forall v :: v in vols <==> v in Fulls(i, Holding(i, h))) && Answers(i, h, meta))
    && (scope != [] ==>
          (forall v :: v in vols <==> v in Fulls(i, DeclaredNames(i)) && v in h.present) && IsDeclaredMeta(i, meta))
  }

  /** The declared volumes' metadata, keyed by full name. */
  method DeclaredByFullName(i: Instance) returns (meta: map<string, VolMeta>)
    ensures IsDeclaredMeta(i, meta)
  {
    meta := map[];
    for k := 0 to |i.volumes|
      invariant ByFullName(i, DeclaredMeta(i.volumes[..k]), meta)
    {
      var v := i.volumes[k];
      DeclaredMetaNext(i.volumes, k);
      ByFullNameNext(i, DeclaredMeta(i.volumes[..k]), meta, v);
      meta := meta[Full(i, v.name) := v.meta];
    }
    assert i.volumes[..|i.volumes|] == i.volumes;
  }

  lemma ByFullNameNext(i: Instance, shorts: map<string, VolMeta>, meta: map<string, VolMeta>, v: Declared)
    requires ByFullName(i, shorts, meta)
    ensures ByFullName(i, shorts[v.name := v.meta], meta[Full(i, v.name) := v.meta])
  {
    FullsNext(i, shorts.Keys, v.name);
    assert shorts[v.name := v.meta].Keys == shorts.Keys + {v.name};
    forall s ensures Full(i, s) == Full(i, v.name) ==> s == v.name {
      FullInjective(i, s, v.name);
    }
  }

  method CheckScoped(i: Instance, h: Host, scope: seq<string>, meta: map<string, VolMeta>, declaredOnly: bool)
      returns (r: Check)
    requires scope != [] && IsDeclaredMeta(i, meta)
    ensures declaredOnly ==> (r.Accepted? <==> DeclaredAllowed(i, scope)) && !r.HostFailed?
    ensures !declaredOnly && r.Accepted? ==> ScopedAllowed(i, h, scope) && Resolved(i, h, scope, r.vols, r.meta)
    ensures !declaredOnly && r.Refused? ==> !ScopedAllowed(i, h, scope)
    ensures r.HostFailed? <==> !declaredOnly && DeclaredAllowed(i, scope) && !DeclaredReachable(i, h)
  {
    var declared := DeclaredMeta(i.volumes);
    for k := 0 to |scope|
      invariant forall j :: 0 <= j < k ==> scope[j] in declared && !Vetoed(i, scope[j])
    {
      if scope[k] !in declared || IsNone(declared[scope[k]].marker) {
        assert scope[k] in scope;
        return Refused;
      }
    }
    if declaredOnly {
      return Accepted([], meta);
    }
    var ok, vols := InstanceVolumes(i, h);
    if !ok {
      return HostFailed;
    }
    for k := 0 to |scope|
      invariant forall j :: 0 <= j < k ==> Full(i, scope[j]) in h.present
    {
      FullsHas(i, DeclaredNames(i), scope[k]);
      if Full(i, scope[k]) !in vols {
        assert scope[k] in scope;
        return Refused;
      }
    }
    return Accepted(vols, meta);
  }

  method CheckUnscoped(i: Instance, h: Host, history: seq<BackupRow>, meta: map<string, VolMeta>) returns (r: Check)
    requires IsDeclaredMeta(i, meta)
    requires DeclaredNames(i) == {} || exists s :: s in KnownNames(i) && !Vetoed(i, s)
    ensures r.Accepted? ==> UnscopedAllowed(i, h, history) && Resolved(i, h, [], r.vols, r.meta)
    ensures r.Refused? ==> !UnscopedAllowed(i, h, history)
    ensures r.HostFailed? <==> !Reachable(i, h)
  {
    hide IsNone, Fulls, Full, Lookup, Answers, IsDeclaredMeta, EffectiveMeta, Distinct, DistinctVolumes, Reachable;
    var ok, c := ClassifyVolumes(i, h, meta);
    if !ok {
      return HostFailed;
    }
    Counted(i, h, c.vols, c.materialized, c.lost);
    if c.materialized == 0 && |c.lost| > 0 && |c.vols| == 0 {
      var corroborated := AppliedLossCorroborated(i, c.lost, history);
      if |corroborated| > 0 {
        assert corroborated[0] in corroborated;
        return Refused;
      }
    }
    if DeclaredMeta(i.volumes) == map[] {
      if c.materialized > 0 {
        return Refused;
      }
      return Accepted([], c.meta);
    }
    for k := 0 to |c.vols|
      invariant forall j :: 0 <= j < k ==> IsNone(Lookup(c.meta, c.vols[j]).marker)
    {
      if !IsNone(Lookup(c.meta, c.vols[k]).marker) {
        CapturesSomething(i, h, c.vols, c.meta, k);
        return Accepted(c.vols, c.meta);
      }
    }
    if |c.vols| > 0 {
      AllVetoed(i, h, c.vols, c.meta);
      return Refused;
    }
    return Accepted(c.vols, c.meta);
  }

  /** The counts say what the guards take them to say. */
  lemma Counted(i: Instance, h: Host, vols: seq<string>, materialized: nat, lost: seq<string>)
    requires forall v :: v in vols <==> v in Fulls(i, Holding(i, h))
    requires materialized == 0 <==> forall s :: s in AppliedNames(i) ==> Full(i, s) !in h.present
    requires forall s :: s in lost <==> s in AppliedNames(i) && Full(i, s) !in h.present
    ensures |vols| == 0 <==> Holding(i, h) == {}
    ensures Holding(i, h) == {} ==> materialized == 0 && forall s :: s in lost <==> s in AppliedNames(i)
    ensures DeclaredNames(i) == {} && Holding(i, h) != {} ==> materialized > 0
  {
    if s :| s in Holding(i, h) {
      assert Full(i, s) in vols;
    }
    if |vols| > 0 {
      assert vols[0] in vols;
    }
    assert forall s :: s in KnownNames(i) && Full(i, s) in h.present ==> s in Holding(i, h);
  }

  lemma CapturesSomething(i: Instance, h: Host, vols: seq<string>, meta: map<string, VolMeta>, k: nat)
    requires forall v :: v in vols <==> v in Fulls(i, Holding(i, h))
    requires Answers(i, h, meta) && k < |vols| && !IsNone(Lookup(meta, vols[k]).marker)
    ensures Captured(i, h) != {}
  {
    assert vols[k] in vols;
    var s :| s in Holding(i, h) && Full(i, s) == vols[k];
    assert s in Captured(i, h);
  }

  lemma AllVetoed(i: Instance, h: Host, vols: seq<string>, meta: map<string, VolMeta>)
    requires forall v :: v in vols <==> v in Fulls(i, Holding(i, h))
    requires Answers(i, h, meta) && |vols| > 0 && forall j :: 0 <= j < |vols| ==> IsNone(Lookup(meta, vols[j]).marker)
    ensures Captured(i, h) == {} && Holding(i, h) != {}
  {
    assert vols[0] in vols;
    forall s | s in Holding(i, h) ensures Vetoed(i, s) {
      assert Full(i, s) in vols;
    }
  }

  /** Admits a backup exactly when it is allowed, unless the host cannot be asked, and
      resolves what to export. */
  method CheckBackupable(i: Instance, h: Host, history: seq<BackupRow>, scope: seq<string>, declaredOnly: bool)
      returns (r: Check)
    ensures declaredOnly ==> (r.Accepted? <==> DeclaredAllowed(i, scope)) && !r.HostFailed?
    ensures !declaredOnly ==> (r.Accepted? <==> Admitted(i, h, history, scope))
    ensures !declaredOnly && r.Accepted? ==> Resolved(i, h, scope, r.vols, r.meta)
    ensures r.HostFailed? <==> !declaredOnly && DeclaredAllowed(i, scope) && !Answering(i, h, scope)
  {
    AllowedIsDeclared(i, h, history, scope);
    var meta := DeclaredByFullName(i);
    if scope != [] {
      r := CheckScoped(i, h, scope, meta, declaredOnly);
      return;
    }
    var declared := DeclaredMeta(i.volumes);
    if declared == map[] && AppliedNames(i) == [] {
      assert KnownNames(i) == {} && Holding(i, h) == {};
      return Accepted([], meta);
    }
    if declared != map[] {
      var any := AnyExportableVolume(i);
      if !any {
        return Refused;
      }
    }
    if declaredOnly {
      return Accepted([], meta);
    }
    r := CheckUnscoped(i, h, history, meta);
  }

  /** What the store alone would refuse is refused whatever the host holds. */
  lemma AllowedIsDeclared(i: Instance, h: Host, history: seq<BackupRow>, scope: seq<string>)
    ensures Allowed(i, h, history, scope) ==> DeclaredAllowed(i, scope)
  {
  }

  // ----- Export -----

  /** The volumes a backup of this scope records. */
  function Recorded(i: Instance, h: Host, scope: seq<string>): set<string>
  {
    if scope == [] then Captured(i, h) else set s | s in scope
  }

  /** Each export uses the exclude patterns in effect for its volume. */
  ghost predicate Filtering(i: Instance, names: seq<string>, patterns: seq<seq<string>>)
  {
    |patterns| == |names| && forall k, s :: 0 <= k < |names| && names[k] == Full(i, s) ==>
      patterns[k] == EffectiveMeta(i, s).exclude
  }

  /** The export loop: everything resolved but the vetoed and, under a scope, the volumes
      it does not name, each with its exclude patterns. */
  method ExportSet(i: Instance, h: Host, scope: seq<string>, vols: seq<string>, meta: map<string, VolMeta>)
      returns (names: seq<string>, patterns: seq<seq<string>>)
    requires Resolved(i, h, scope, vols, meta)
    requires scope != [] ==> ScopedAllowed(i, h, scope)
    ensures forall v :: v in names <==> v in Fulls(i, Recorded(i, h, scope))
    ensures DistinctVolumes(i) ==> Distinct(names)
    ensures |patterns| == |names| && Filtering(i, names, patterns)
  {
    hide IsNone, Fulls, DeclaredMeta, Holding, Captured, Recorded, ScopedAllowed, Answers, IsDeclaredMeta,
         EffectiveMeta;
    var wanted := set k | 0 <= k < |scope| :: Full(i, scope[k]);
    names, patterns := [], [];
    for k := 0 to |vols|
      invariant forall v :: v in names <==>
                v in vols[..k] && !IsNone(Lookup(meta, v).marker) && (scope == [] || v in wanted)
      invariant Distinct(vols) ==> Distinct(names)
      invariant |patterns| == |names| && forall j :: 0 <= j < |names| ==>
                names[j] in vols && patterns[j] == Lookup(meta, names[j]).exclude
    {
      var v := vols[k];
      if IsNone(Lookup(meta, v).marker) {
        continue;
      }
      if scope != [] && v !in wanted {
        continue;
      }
      assert v in vols[..k] ==> exists j :: 0 <= j < k && vols[j] == v;
      names := names + [v];
      patterns := patterns + [Lookup(meta, v).exclude];
    }
    assert vols[..|vols|] == vols;
    ExportedExactly(i, h, scope, vols, meta, wanted);
    forall k, s | 0 <= k < |names| && names[k] == Full(i, s) ensures patterns[k] == EffectiveMeta(i, s).exclude {
      ResolvedMeta(i, h, scope, vols, meta, s);
    }
  }

  /** What the metadata map answers for a resolved volume is its effective metadata. */
  lemma ResolvedMeta(i: Instance, h: Host, scope: seq<string>, vols: seq<string>, meta: map<string, VolMeta>, s: string)
    requires Resolved(i, h, scope, vols, meta) && Full(i, s) in vols
    ensures Lookup(meta, Full(i, s)) == EffectiveMeta(i, s)
  {
    FullsHas(i, Holding(i, h), s);
    FullsHas(i, DeclaredNames(i), s);
  }

  lemma ExportedExactly(i: Instance, h: Host, scope: seq<string>, vols: seq<string>, meta: map<string, VolMeta>,
                        wanted: set<string>)
    requires Resolved(i, h, scope, vols, meta) && wanted == set k | 0 <= k < |scope| :: Full(i, scope[k])
    requires scope != [] ==> ScopedAllowed(i, h, scope)
    ensures forall v :: v in Fulls(i, Recorded(i, h, scope)) <==>
            v in vols && !IsNone(Lookup(meta, v).marker) && (scope == [] || v in wanted)
  {
  }

  // ----- What this means for an operator -----

  /** Applying an instance records what its template declares at that moment. */
  function Apply(i: Instance): Instance
  {
    i.(applied := Applied.Known(seq(|i.volumes|, k requires 0 <= k < |i.volumes| => i.volumes[k].name)),
       appliedMeta := DeclaredMeta(i.volumes))
  }

  /** After an apply and any later template edit, an unscoped backup captures exactly the
      volumes on the host that the edited template declares unvetoed, or that it dropped
      or renamed and that were unvetoed when applied: a veto survives a rename. */
  lemma CapturedAfterEdit(i: Instance, edited: seq<Declared>, h: Host, s: string)
    ensures s in Captured(Apply(i).(volumes := edited), h) <==>
            && Full(i, s) in h.present
            && if s in DeclaredMeta(edited) then !IsNone(DeclaredMeta(edited)[s].marker)
               else s in DeclaredMeta(i.volumes) && !IsNone(DeclaredMeta(i.volumes)[s].marker)
  {
    var j := Apply(i).(volumes := edited);
    DeclaredMetaKeys(i.volumes);
    assert s in AppliedNames(j) <==> s in DeclaredMeta(i.volumes) by {
      if k :| 0 <= k < |i.volumes| && i.volumes[k].name == s {
        assert AppliedNames(j)[k] == s;
      }
    }
    assert Full(j, s) == Full(i, s);
  }
}
