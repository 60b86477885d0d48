/** Cold migration of one instance between two hosts, with its crash recovery, as a
    transition system over primitive effects. The daemon may crash between any two
    effects, an effect may report failure whether or not it happened, and running pods
    write to their volumes at any time. */
module Migration {
  import opened Manifests

  /** A volume's content, split into what verification compares (its manifest without the
      ignored paths) and what it ignores. */
  datatype Content = Content(checked: Manifest, ignored: Manifest)

  datatype Pod = NoPod | Stopped | Running(healthy: bool)

  /** A volume: its content when it was last imported into or its pod was last stopped,
      and the writes a running pod has made since. */
  datatype Volume = Volume(base: Content, writes: seq<Content>) {
    function Live(): Content { if writes == [] then base else writes[|writes| - 1] }
  }

  /** One host's share of the instance: its pod, its volumes and its desired-state row. */
  datatype Host = Host(pod: Pod, vols: map<string, Volume>, spec: bool)

  datatype Cluster = Cluster(src: Host, dst: Host)

  datatype Side = Src | Dst

  /** The effects of a pruning delete, in order. */
  datatype Stage = RemovePod | Prune | DropSpec | Refresh

  /** On whose behalf a delete runs: a failed migrate's rollback, a migrate's commit, or
      recovery rolling forward (source pod present or already gone) or back. */
  datatype Cause = Rollback | Commit | Forward | Adopt | Back

  datatype Outcome = Succeeded | Failed | RolledForward | RolledBack | OrphanDest | NotFound | GaveUp

  /** The effect a job performs next. */
  datatype Control =
    | Preflight
    | StopSource
    | ListVolumes
    | CreateVolume(todo: seq<string>)
    | CopyVolume(todo: seq<string>)
    | VerifyVolume(todo: seq<string>, want: Manifest)
    | ApplyInspect
    | ApplyPlay
    | ApplyPersist
    | ApplyIngress
    | AwaitDest
    | RollbackStart
    | Deleting(at: Side, stage: Stage, cause: Cause)
    | Recover
    | RecoverDest(srcPresent: bool)
    | RecoverSpec(srcPresent: bool)
    | RestoreSource
    | Done(outcome: Outcome)

  /** `snap` is what must not be lost: until this job stops the source, whatever the
      declared source volumes hold at the moment; from then on, what they held at the stop
      (`stopped`). `seenHealthy` records that the current pass observed a ready destination. */
  datatype State = State(c: Cluster, at: Control, snap: map<string, Content>, stopped: bool, seenHealthy: bool)

  // ----- Effects -----

  predicate Reports(h: Host, h': Host, effect: Host)
  {
    h' == h || h' == effect
  }

  /** Stopping a pod settles its volumes. */
  function Settled(h: Host): Host
  {
    Host(Stopped, map v | v in h.vols :: Volume(h.vols[v].Live(), []), h.spec)
  }

  function Snapshot(declared: set<string>, h: Host): map<string, Content>
  {
    map v | v in h.vols && v in declared :: h.vols[v].Live()
  }

  /** Playing a pod reuses existing volumes and may create missing ones. */
  ghost predicate Played(h: Host, h': Host)
  {
    && h'.pod.Running? && h'.spec == h.spec
    && (forall v :: v in h.vols ==> v in h'.vols && h'.vols[v] == h.vols[v])
  }

  function On(c: Cluster, at: Side): Host
  {
    if at.Src? then c.src else c.dst
  }

  function Put(c: Cluster, at: Side, h: Host): Cluster
  {
    if at.Src? then c.(src := h) else c.(dst := h)
  }

  // ----- Steps of a migrate job -----

  /** From the first check to the last verified volume. */
  ghost predicate CopyStep(declared: set<string>, s: State, s': State)
  {
    var src, dst := s.c.src, s.c.dst;
    match s.at
    case Preflight =>
      || s' == s.(at := Done(Failed))
      || (src.spec && dst.pod == NoPod && s' == s.(at := StopSource))
    case StopSource =>
      || s' == s.(at := Done(Failed))
      || (src.pod != NoPod
          && s'.c == s.c.(src := Settled(src)) && s'.snap == Snapshot(declared, Settled(src)) && s'.stopped
          && s'.seenHealthy == s.seenHealthy && (s'.at == ListVolumes || s'.at == Done(Failed)))
    case ListVolumes =>
      || s' == s.(at := RollbackStart)
      || (s'.at.CreateVolume? && s' == s.(at := s'.at)
          && (forall v :: v in s'.at.todo <==> v in declared && v in src.vols))
    case CreateVolume(todo) =>
      if todo == [] then s' == s.(at := ApplyInspect)
      else
        var made := if todo[0] in dst.vols then dst
          else dst.(vols := dst.vols[todo[0] := Volume(Content(map[], map[]), [])]);
        || (Reports(dst, s'.c.dst, made) && s' == s.(c := s.c.(dst := s'.c.dst), at := RollbackStart))
        || s' == s.(c := s.c.(dst := made), at := CopyVolume(todo))
    case CopyVolume(todo) =>
      && todo != [] && todo[0] in src.vols && todo[0] in s'.c.dst.vols
      && s'.c.dst.vols[todo[0]].writes == []
      && s'.c == s.c.(dst := dst.(vols := dst.vols[todo[0] := s'.c.dst.vols[todo[0]]]))
      && s' == s.(c := s'.c, at := s'.at)
      && (s'.at == RollbackStart || s'.at == VerifyVolume(todo, src.vols[todo[0]].Live().checked))
    case VerifyVolume(todo, want) =>
      || s' == s.(at := RollbackStart)
      || (todo != [] && todo[0] in dst.vols && want == dst.vols[todo[0]].Live().checked
          && s' == s.(at := CreateVolume(todo[1..])))
    case _ => false
  }

  /** From applying the instance on the destination to the commit or the rollback. */
  ghost predicate ApplyStep(s: State, s': State)
  {
    var src, dst := s.c.src, s.c.dst;
    match s.at
    case ApplyInspect =>
      || s' == s.(at := RollbackStart)
      || (dst.pod == NoPod && s' == s.(at := ApplyPlay))
    case ApplyPlay =>
      || s' == s.(at := RollbackStart)
      || (Played(dst, s'.c.dst) && (s'.at == RollbackStart || s'.at == ApplyPersist)
          && s' == s.(c := s.c.(dst := s'.c.dst), at := s'.at))
    case ApplyPersist =>
      || s' == s.(at := RollbackStart)
      || ((s'.at == RollbackStart || s'.at == ApplyIngress)
          && s' == s.(c := s.c.(dst := dst.(spec := true)), at := s'.at))
    case ApplyIngress =>
      s' == s.(at := RollbackStart) || s' == s.(at := AwaitDest)
    case AwaitDest =>
      || s' == s.(at := RollbackStart)
      || (dst.pod == Running(true) && s' == s.(at := Deleting(Src, RemovePod, Commit), seenHealthy := true))
    case RollbackStart =>
      && (s'.c.src == src || (src.pod != NoPod && s'.c.src.pod.Running? && s'.c.src == src.(pod := s'.c.src.pod)))
      && s' == s.(c := s.c.(src := s'.c.src), at := Deleting(Dst, RemovePod, Rollback))
    case _ => false
  }

  // ----- Steps of a pruning delete -----

  /** Where a delete that reports an error leaves its job: recovery is inconclusive and
      runs again later, a migrate ends failed. */
  function OnError(cause: Cause): Control
  {
    if cause.Rollback? || cause.Commit? then Done(Failed) else Recover
  }

  function OnSuccess(cause: Cause): Control
  {
    match cause
    case Rollback => Done(Failed)
    case Commit => Done(Succeeded)
    case Forward => Done(RolledForward)
    case Adopt => Done(RolledForward)
    case Back => Done(RolledBack)
  }

  ghost predicate DeleteStep(declared: set<string>, s: State, s': State)
  {
    && s.at.Deleting?
    && var h, cause := On(s.c, s.at.at), s.at.cause;
       match s.at.stage
       case RemovePod =>
         var gone := h.(pod := NoPod);
         || s' == s.(c := Put(s.c, s.at.at, gone), at := s.at.(stage := Prune))
         || s' == s.(at := OnError(cause))
         || s' == s.(c := Put(s.c, s.at.at, gone), at := OnError(cause))
       case Prune =>
         || s' == s.(at := s.at.(stage := DropSpec))
         || (exists v :: v in declared && PruneOne(s, s', h, v))
       case DropSpec =>
         var cleared := h.(spec := false);
         || s' == s.(c := Put(s.c, s.at.at, cleared), at := s.at.(stage := Refresh))
         || s' == s.(at := OnError(cause))
         || s' == s.(c := Put(s.c, s.at.at, cleared), at := OnError(cause))
       case Refresh =>
         s' == s.(at := OnSuccess(cause)) || s' == s.(at := OnError(cause))
  }

  /** Removing one volume is best effort: failures are ignored, so the prune may move on
      with any part of it done. */
  predicate PruneOne(s: State, s': State, h: Host, v: string)
    requires s.at.Deleting?
  {
    s' == s.(c := Put(s.c, s.at.at, h.(vols := h.vols - {v})))
  }

  // ----- Steps of a recovery pass -----

  /** A destination that is not to be trusted: roll back if the source pod is there. */
  function Distrust(srcPresent: bool, destPresent: bool): Control
  {
    if srcPresent then RestoreSource else if destPresent then Done(OrphanDest) else Done(NotFound)
  }

  ghost predicate RecoverStep(declared: set<string>, s: State, s': State)
  {
    var src, dst := s.c.src, s.c.dst;
    match s.at
    case Recover =>
      || s' == s.(seenHealthy := false)
      || s' == s.(at := Done(GaveUp), seenHealthy := false)
      || s' == s.(at := RecoverDest(src.pod != NoPod), seenHealthy := false)
    case RecoverDest(srcPresent) =>
      || s' == s.(at := Recover)
      || (dst.pod == Running(true) && s' == s.(at := RecoverSpec(srcPresent), seenHealthy := true))
      || (dst.pod != Running(true) && s' == s.(at := Distrust(srcPresent, dst.pod != NoPod)))
    case RecoverSpec(srcPresent) =>
      || s' == s.(at := Recover)
      || (dst.spec && s' == s.(at := Done(GaveUp)))
      || (dst.spec && s' == s.(at := if srcPresent then Deleting(Src, RemovePod, Forward)
                                     else Deleting(Src, Prune, Adopt)))
      || (!dst.spec && s' == s.(at := Distrust(srcPresent, true)))
    case RestoreSource =>
      && (s'.c.src == src || (src.pod != NoPod && s'.c.src.pod.Running? && s'.c.src == src.(pod := s'.c.src.pod)))
      && (s'.at == Recover || (s'.at == Deleting(Dst, RemovePod, Back) && s'.c.src.pod.Running?))
      && s' == s.(c := s.c.(src := s'.c.src), at := s'.at)
    case _ => false
  }

  /** The daemon dies; at the next boot the interrupted job is handed to recovery. */
  ghost predicate CrashStep(s: State, s': State)
  {
    !s.at.Done? && s' == s.(at := Recover)
  }

  // ----- What happens around the job -----

  ghost predicate Writes(h: Host, h': Host, v: string, f: Content)
  {
    && h.pod.Running? && v in h.vols
    && h' == h.(vols := h.vols[v := h.vols[v].(writes := h.vols[v].writes + [f])])
  }

  /** A stopped source is not written, except that shadow WAL files may still settle. */
  ghost predicate Settles(h: Host, h': Host, v: string, f: Content)
  {
    && h.pod == Stopped && v in h.vols && f.checked == h.vols[v].base.checked
    && h' == h.(vols := h.vols[v := h.vols[v].(base := f)])
  }

  /** What a write to the source does to what must be protected. */
  function Following(s: State, v: string, f: Content): map<string, Content>
  {
    if s.stopped || v !in s.snap then s.snap else s.snap[v := f]
  }

  ghost predicate SourceWrite(s: State, s': State, v: string, f: Content)
  {
    Writes(s.c.src, s'.c.src, v, f) && s' == s.(c := s.c.(src := s'.c.src), snap := Following(s, v, f))
  }

  ghost predicate DestWrite(s: State, s': State, v: string, f: Content)
  {
    Writes(s.c.dst, s'.c.dst, v, f) && s' == s.(c := s.c.(dst := s'.c.dst))
  }

  ghost predicate SourceSettles(s: State, s': State, v: string, f: Content)
  {
    Settles(s.c.src, s'.c.src, v, f) && s' == s.(c := s.c.(src := s'.c.src))
  }

  ghost predicate WriteStep(s: State, s': State)
  {
    || (exists v, f :: SourceWrite(s, s', v, f))
    || (exists v, f :: DestWrite(s, s', v, f))
    || (exists v, f :: SourceSettles(s, s', v, f))
  }

  /** A running pod may turn healthy, unhealthy or exit; a stopped source stays stopped. */
  ghost predicate HealthStep(s: State, s': State)
  {
    || (s.c.src.pod.Running? && s'.c.src.pod != NoPod && s' == s.(c := s.c.(src := s.c.src.(pod := s'.c.src.pod))))
    || (s.c.dst.pod != NoPod && s'.c.dst.pod != NoPod && s' == s.(c := s.c.(dst := s.c.dst.(pod := s'.c.dst.pod))))
  }

  ghost predicate Next(declared: set<string>, s: State, s': State)
  {
    || CopyStep(declared, s, s')
    || ApplyStep(s, s')
    || DeleteStep(declared, s, s')
    || RecoverStep(declared, s, s')
    || CrashStep(s, s')
    || WriteStep(s, s')
    || HealthStep(s, s')
  }

  ghost predicate Start(declared: set<string>, s: State)
  {
    && s.at == Preflight && s.c.src.spec && !s.stopped && !s.seenHealthy
    && s.snap == Snapshot(declared, s.c.src)
  }

  ghost predicate IsRun(declared: set<string>, run: seq<State>)
  {
    && run != [] && Start(declared, run[0])
    && forall i :: 0 < i < |run| ==> Next(declared, run[i - 1], run[i])
  }
}
