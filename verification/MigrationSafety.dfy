/** No run of a migrate job loses the source's data: crashes between any two effects,
    lost replies, failing prunes and any number of recovery passes included. */
module MigrationSafety {
  import opened Migration

  /** The volume was at this content, up to the paths comparison ignores, and has since
      only been written by its own pod. */
  predicate Descends(vol: Volume, c: Content)
  {
    vol.base.checked == c.checked || exists k :: 0 <= k < |vol.writes| && vol.writes[k].checked == c.checked
  }

  predicate Keeps(h: Host, snap: map<string, Content>, v: string)
    requires v in snap
  {
    v in h.vols && Descends(h.vols[v], snap[v])
  }

  /** `h` holds the complete snapshot. */
  ghost predicate Holds(h: Host, snap: map<string, Content>)
  {
    forall v :: v in snap ==> Keeps(h, snap, v)
  }

  /** The destination may be adopted: it has a pod and a persisted desired state. */
  predicate Committed(h: Host)
  {
    h.pod != NoPod && h.spec
  }

  /** The source is still the frozen original. */
  ghost predicate Frozen(src: Host, snap: map<string, Content>)
  {
    src.pod == Stopped && forall v :: v in snap ==> v in src.vols && src.vols[v].writes == []
  }

  ghost predicate CopiedBut(dst: Host, snap: map<string, Content>, todo: seq<string>)
  {
    && (forall v :: v in todo ==> v in snap)
    && (forall v :: v in snap && v !in todo ==> Keeps(dst, snap, v))
  }

  /** What each point of the protocol may rely on. */
  ghost predicate ControlInv(declared: set<string>, s: State)
  {
    var src, dst, snap := s.c.src, s.c.dst, s.snap;
    match s.at
    case Preflight => !s.stopped
    case StopSource => !s.stopped && dst.pod == NoPod
    case ListVolumes => s.stopped && dst.pod == NoPod && Frozen(src, snap)
    case CreateVolume(todo) => s.stopped && dst.pod == NoPod && Frozen(src, snap) && CopiedBut(dst, snap, todo)
    case CopyVolume(todo) =>
      s.stopped && dst.pod == NoPod && Frozen(src, snap) && CopiedBut(dst, snap, todo) && todo != []
    case VerifyVolume(todo, want) =>
      && s.stopped && dst.pod == NoPod && Frozen(src, snap) && CopiedBut(dst, snap, todo) && todo != []
      && want == snap[todo[0]].checked
      && todo[0] in dst.vols && dst.vols[todo[0]].writes == []
    case ApplyInspect => s.stopped && dst.pod == NoPod && src.pod != NoPod && Holds(dst, snap)
    case ApplyPlay => s.stopped && dst.pod == NoPod && src.pod != NoPod && Holds(dst, snap)
    case ApplyPersist => s.stopped && dst.pod != NoPod && src.pod != NoPod && Holds(dst, snap)
    case ApplyIngress => Committed(dst) && src.pod != NoPod
    case AwaitDest => Committed(dst) && src.pod != NoPod
    case RollbackStart => src.pod != NoPod
    case Deleting(Src, stage, _) => Committed(dst) && s.seenHealthy && (stage == RemovePod || src.pod == NoPod)
    case Deleting(Dst, stage, _) => src.pod != NoPod && (stage == RemovePod || dst.pod == NoPod)
    case RecoverDest(present) => present == (src.pod != NoPod)
    case RecoverSpec(present) => present == (src.pod != NoPod) && dst.pod != NoPod && s.seenHealthy
    case RestoreSource => src.pod != NoPod
    case _ => true
  }

  /** The protected content is what the source's volumes hold now. */
  ghost predicate Current(src: Host, snap: map<string, Content>)
  {
    forall v :: v in snap ==> v in src.vols && src.vols[v].Live().checked == snap[v].checked
  }

  /** Everything declared that the source still has is protected, and nothing else. */
  ghost predicate Listed(declared: set<string>, s: State)
  {
    s.snap.Keys <= declared && forall v :: v in declared && v in s.c.src.vols ==> v in s.snap
  }

  ghost predicate Inv(declared: set<string>, s: State)
  {
    && Listed(declared, s)
    && (s.c.src.pod != NoPod ==> Holds(s.c.src, s.snap) && s.c.src.spec)
    && (Committed(s.c.dst) ==> Holds(s.c.dst, s.snap))
    && (Holds(s.c.src, s.snap) || Committed(s.c.dst))
    && (!s.stopped ==> !Committed(s.c.dst) && Current(s.c.src, s.snap))
    && ControlInv(declared, s)
  }

  /** The one condition on the starting point, which a caller can look up: the destination
      does not have a pod of that name together with a desired-state row. */
  predicate DestFree(s: State)
  {
    !Committed(s.c.dst)
  }

  lemma InvStop(declared: set<string>, s: State, s': State)
    requires Inv(declared, s) && CopyStep(declared, s, s') && (s.at.Preflight? || s.at.StopSource?)
    ensures Inv(declared, s')
  {
  }

  lemma InvList(declared: set<string>, s: State, s': State)
    requires Inv(declared, s) && CopyStep(declared, s, s') && s.at.ListVolumes?
    ensures Inv(declared, s')
  {
  }

  lemma InvCreate(declared: set<string>, s: State, s': State)
    requires Inv(declared, s) && CopyStep(declared, s, s') && s.at.CreateVolume?
    ensures Inv(declared, s')
  {
    hide Descends;
  }

  lemma InvTransfer(declared: set<string>, s: State, s': State)
    requires Inv(declared, s) && CopyStep(declared, s, s') && s.at.CopyVolume?
    ensures Inv(declared, s')
  {
  }

  lemma InvVerify(declared: set<string>, s: State, s': State)
    requires Inv(declared, s) && CopyStep(declared, s, s') && s.at.VerifyVolume?
    ensures Inv(declared, s')
  {
  }

  lemma InvApply(declared: set<string>, s: State, s': State)
    requires Inv(declared, s) && ApplyStep(s, s')
    ensures Inv(declared, s')
  {
    hide Descends;
  }

  lemma InvDeleteSource(declared: set<string>, s: State, s': State)
    requires Inv(declared, s) && DeleteStep(declared, s, s') && s.at.at == Src
    ensures Inv(declared, s')
    ensures Committed(s.c.dst) && Holds(s.c.dst, s.snap) && s.seenHealthy && s'.c.dst == s.c.dst
  {
    hide Descends;
    match s.at.stage
    case RemovePod =>
      assert s'.c.dst == s.c.dst && s'.snap == s.snap && s'.c.src.vols == s.c.src.vols;
    case Prune =>
      assert s'.c.dst == s.c.dst && s'.snap == s.snap && s'.c.src.pod == NoPod;
    case DropSpec =>
      assert s'.c.dst == s.c.dst && s'.snap == s.snap && s'.c.src.pod == NoPod;
    case Refresh =>
      assert s'.c == s.c && s'.snap == s.snap;
  }

  lemma InvDeleteDest(declared: set<string>, s: State, s': State)
    requires Inv(declared, s) && DeleteStep(declared, s, s') && s.at.at == Dst
    ensures Inv(declared, s')
    ensures s.c.src.pod != NoPod && s.c.src.spec && Holds(s.c.src, s.snap) && s'.c.src == s.c.src
  {
    hide Holds, Descends;
    match s.at.stage
    case RemovePod =>
      assert s'.c.src == s.c.src && s'.snap == s.snap && s'.c.dst.vols == s.c.dst.vols;
    case Prune =>
      assert s'.c.src == s.c.src && s'.snap == s.snap && s'.c.dst.pod == NoPod;
    case DropSpec =>
      assert s'.c.src == s.c.src && s'.snap == s.snap && s'.c.dst.pod == NoPod;
    case Refresh =>
      assert s'.c == s.c && s'.snap == s.snap;
  }

  /** Nothing about the volumes has changed. */
  lemma SameVolumes(declared: set<string>, s: State, s': State)
    requires s'.c.src.vols == s.c.src.vols && s'.c.dst.vols == s.c.dst.vols && s'.snap == s.snap
    ensures Listed(declared, s') <==> Listed(declared, s)
    ensures Holds(s'.c.src, s'.snap) <==> Holds(s.c.src, s.snap)
    ensures Holds(s'.c.dst, s'.snap) <==> Holds(s.c.dst, s.snap)
    ensures Current(s'.c.src, s'.snap) <==> Current(s.c.src, s.snap)
    ensures forall todo :: CopiedBut(s'.c.dst, s'.snap, todo) <==> CopiedBut(s.c.dst, s.snap, todo)
    ensures s.c.src.pod == s'.c.src.pod ==> (Frozen(s'.c.src, s'.snap) <==> Frozen(s.c.src, s.snap))
  {
    hide Descends;
  }

  /** A recovery pass only looks, or starts a source pod that is there. */
  lemma RecoverFrame(declared: set<string>, s: State, s': State)
    requires RecoverStep(declared, s, s')
    ensures s'.c.dst == s.c.dst && s'.snap == s.snap && s'.stopped == s.stopped
    ensures s'.c.src == s.c.src.(pod := s'.c.src.pod) && (s'.c.src.pod == NoPod <==> s.c.src.pod == NoPod)
  {
  }

  lemma InvRecover(declared: set<string>, s: State, s': State)
    requires Inv(declared, s) && RecoverStep(declared, s, s')
    ensures Inv(declared, s')
  {
    hide Listed, Holds, Current, Frozen, CopiedBut;
    RecoverFrame(declared, s, s');
    SameVolumes(declared, s, s');
    assert ControlInv(declared, s');
    hide ControlInv, RecoverStep;
  }

  lemma InvCrashOrHealth(declared: set<string>, s: State, s': State)
    requires Inv(declared, s) && (CrashStep(s, s') || HealthStep(s, s'))
    ensures Inv(declared, s')
  {
    hide Listed, Holds, Current, CopiedBut;
    SameVolumes(declared, s, s');
  }

  /** The job's place is unchanged and everything the place relies on still holds. */
  lemma Framed(declared: set<string>, s: State, s': State)
    requires Inv(declared, s) && s'.at == s.at && s'.stopped == s.stopped && s'.seenHealthy == s.seenHealthy
    requires s'.c.src.pod == s.c.src.pod && s'.c.src.spec == s.c.src.spec
    requires s'.c.dst.pod == s.c.dst.pod && s'.c.dst.spec == s.c.dst.spec
             && (s.c.dst.pod == NoPod ==> s'.c.dst == s.c.dst)
    requires Listed(declared, s') && (s.stopped ==> s'.snap == s.snap)
    requires Holds(s.c.src, s.snap) ==> Holds(s'.c.src, s'.snap)
    requires s.stopped && Holds(s.c.dst, s.snap) ==> Holds(s'.c.dst, s'.snap)
    requires Current(s.c.src, s.snap) ==> Current(s'.c.src, s'.snap) || s.stopped
    requires s.stopped && Frozen(s.c.src, s.snap) ==> Frozen(s'.c.src, s'.snap)
    ensures Inv(declared, s')
  {
    hide Listed, Holds, Current, Frozen, CopiedBut;
  }

  /** A pod's own writes keep whatever its volumes descend from. */
  lemma WriteKeeps(h: Host, h': Host, v: string, f: Content, snap: map<string, Content>)
    requires Writes(h, h', v, f)
    ensures h'.pod == h.pod && h'.spec == h.spec && h'.vols.Keys == h.vols.Keys
    ensures forall u :: u in snap && Keeps(h, snap, u) ==> Keeps(h', snap, u)
    ensures Descends(h'.vols[v], f) && h'.vols[v].Live() == f
    ensures forall u :: u in h.vols && u != v ==> h'.vols[u] == h.vols[u]
  {
    var was, now := h.vols[v], h'.vols[v];
    assert now.writes[|was.writes|] == f;
    forall c | Descends(was, c) ensures Descends(now, c) {
      if k :| 0 <= k < |was.writes| && was.writes[k].checked == c.checked {
        assert now.writes[k].checked == c.checked;
      }
    }
  }

  lemma SettleKeeps(h: Host, h': Host, v: string, f: Content, snap: map<string, Content>)
    requires Settles(h, h', v, f)
    ensures h'.vols.Keys == h.vols.Keys
    ensures forall u :: u in snap && Keeps(h, snap, u) ==> Keeps(h', snap, u)
    ensures forall u :: u in h.vols ==> h'.vols[u].writes == h.vols[u].writes
    ensures forall u :: u in h.vols ==> h'.vols[u].Live().checked == h.vols[u].Live().checked
  {
    assert forall c :: Descends(h.vols[v], c) ==> Descends(h'.vols[v], c);
    hide Descends;
  }

  lemma InvSourceWrite(declared: set<string>, s: State, s': State, v: string, f: Content)
    requires Inv(declared, s) && SourceWrite(s, s', v, f)
    ensures Inv(declared, s')
  {
    hide Descends, ControlInv;
    WriteKeeps(s.c.src, s'.c.src, v, f, s.snap);
    assert Holds(s.c.src, s.snap) ==> Holds(s'.c.src, s'.snap);
    assert Current(s.c.src, s.snap) ==> Current(s'.c.src, s'.snap) || s.stopped;
    hide Holds, Current;
    Framed(declared, s, s');
  }

  lemma InvDestWrite(declared: set<string>, s: State, s': State, v: string, f: Content)
    requires Inv(declared, s) && DestWrite(s, s', v, f)
    ensures Inv(declared, s')
  {
    hide Descends, ControlInv;
    WriteKeeps(s.c.dst, s'.c.dst, v, f, s.snap);
    assert Holds(s.c.dst, s.snap) ==> Holds(s'.c.dst, s.snap);
    hide Holds, Current;
    Framed(declared, s, s');
  }

  lemma InvSettle(declared: set<string>, s: State, s': State, v: string, f: Content)
    requires Inv(declared, s) && SourceSettles(s, s', v, f)
    ensures Inv(declared, s')
  {
    hide Descends, ControlInv;
    SettleKeeps(s.c.src, s'.c.src, v, f, s.snap);
    assert Holds(s.c.src, s.snap) ==> Holds(s'.c.src, s.snap);
    assert Current(s.c.src, s.snap) ==> Current(s'.c.src, s.snap);
    hide Holds, Current;
    Framed(declared, s, s');
  }

  lemma InvWrite(declared: set<string>, s: State, s': State)
    requires Inv(declared, s) && WriteStep(s, s')
    ensures Inv(declared, s')
  {
    hide Inv, SourceWrite, DestWrite, SourceSettles;
    if v, f :| SourceWrite(s, s', v, f) {
      InvSourceWrite(declared, s, s', v, f);
    } else if v, f :| DestWrite(s, s', v, f) {
      InvDestWrite(declared, s, s', v, f);
    } else {
      var v, f :| SourceSettles(s, s', v, f);
      InvSettle(declared, s, s', v, f);
    }
  }

  lemma InvNext(declared: set<string>, s: State, s': State)
    requires Inv(declared, s) && Next(declared, s, s')
    ensures Inv(declared, s')
  {
    hide Inv, ApplyStep, RecoverStep, WriteStep, HealthStep, CrashStep;
    if CopyStep(declared, s, s') {
      match s.at
      case ListVolumes => InvList(declared, s, s');
      case CreateVolume(_) => InvCreate(declared, s, s');
      case CopyVolume(_) => InvTransfer(declared, s, s');
      case VerifyVolume(_, _) => InvVerify(declared, s, s');
      case _ => InvStop(declared, s, s');
    } else if ApplyStep(s, s') {
      InvApply(declared, s, s');
    } else if DeleteStep(declared, s, s') {
      if s.at.at == Src {
        InvDeleteSource(declared, s, s');
      } else {
        InvDeleteDest(declared, s, s');
      }
    } else if RecoverStep(declared, s, s') {
      InvRecover(declared, s, s');
    } else if WriteStep(s, s') {
      InvWrite(declared, s, s');
    } else {
      InvCrashOrHealth(declared, s, s');
    }
  }

  lemma {:induction false} InvRun(declared: set<string>, run: seq<State>, i: nat)
    requires IsRun(declared, run) && DestFree(run[0]) && i < |run|
    ensures Inv(declared, run[i])
  {
    if i > 0 {
      InvRun(declared, run, i - 1);
      InvNext(declared, run[i - 1], run[i]);
    } else {
      assert Holds(run[0].c.src, run[0].snap);
    }
  }

  /** The snapshot is complete on at least one host. */
  ghost predicate Safe(s: State)
  {
    Holds(s.c.src, s.snap) || Holds(s.c.dst, s.snap)
  }

  /** A sound state stays sound, whatever follows. */
  lemma {:induction false} InvPath(declared: set<string>, path: seq<State>, k: nat, i: nat)
    requires forall j :: 0 < j < |path| ==> Next(declared, path[j - 1], path[j])
    requires k <= i < |path| && Inv(declared, path[k])
    ensures Inv(declared, path[i]) && Safe(path[i])
  {
    hide Next, ControlInv;
    if i > k {
      InvPath(declared, path, k, i - 1);
      InvNext(declared, path[i - 1], path[i]);
    }
  }

  /** In every state of every run the snapshot exists complete on at least one host. */
  lemma NoDataLoss(declared: set<string>, run: seq<State>)
    requires IsRun(declared, run) && DestFree(run[0])
    ensures forall i :: 0 <= i < |run| ==> Safe(run[i])
  {
    forall i | 0 <= i < |run| ensures Safe(run[i]) {
      InvRun(declared, run, i);
    }
  }

  ghost predicate LosesVolume(h: Host, h': Host)
  {
    exists v :: v in h.vols && v !in h'.vols
  }

  predicate KeepsVolumes(c: Cluster, c': Cluster)
  {
    c.src.vols.Keys <= c'.src.vols.Keys && c.dst.vols.Keys <= c'.dst.vols.Keys
  }

  lemma MigrateKeepsVolumes(declared: set<string>, s: State, s': State)
    requires CopyStep(declared, s, s') || ApplyStep(s, s')
    ensures KeepsVolumes(s.c, s'.c)
  {
  }

  lemma OthersKeepVolumes(declared: set<string>, s: State, s': State)
    requires RecoverStep(declared, s, s') || CrashStep(s, s') || WriteStep(s, s') || HealthStep(s, s')
    ensures KeepsVolumes(s.c, s'.c)
  {
  }

  lemma OnlyDeletesLoseVolumes(declared: set<string>, s: State, s': State)
    requires Next(declared, s, s')
    ensures KeepsVolumes(s.c, s'.c) || DeleteStep(declared, s, s')
  {
    if CopyStep(declared, s, s') || ApplyStep(s, s') {
      MigrateKeepsVolumes(declared, s, s');
    } else if !DeleteStep(declared, s, s') {
      OthersKeepVolumes(declared, s, s');
    }
  }

  /** A source volume disappears only once the destination has been seen ready, has its
      desired state persisted and holds the whole snapshot; a destination volume only
      while the source has its pod, its desired state and the whole snapshot. */
  lemma PrunesOnlyTheReplaced(declared: set<string>, run: seq<State>, i: nat)
    requires IsRun(declared, run) && DestFree(run[0]) && 0 < i < |run|
    ensures LosesVolume(run[i - 1].c.src, run[i].c.src) ==>
              Committed(run[i - 1].c.dst) && Holds(run[i - 1].c.dst, run[i - 1].snap) && run[i - 1].seenHealthy
    ensures LosesVolume(run[i - 1].c.dst, run[i].c.dst) ==>
              run[i - 1].c.src.pod != NoPod && run[i - 1].c.src.spec && Holds(run[i - 1].c.src, run[i - 1].snap)
  {
    InvRun(declared, run, i - 1);
    OnlyDeletesLoseVolumes(declared, run[i - 1], run[i]);
    if DeleteStep(declared, run[i - 1], run[i]) {
      if run[i - 1].at.at == Src {
        InvDeleteSource(declared, run[i - 1], run[i]);
      } else {
        InvDeleteDest(declared, run[i - 1], run[i]);
      }
    }
  }
}
