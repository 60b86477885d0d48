/** A daemon that dies during a backup, and the pass that reconciles it at the next boot. */
module BackupCrash {
  import opened Replies
  import opened BackupJob

  /** What a backup does to the world. */
  datatype Effect =
    | CreatedRow
    | StoppedPod
    | WroteBlob(blob: Blob)
    | CompletedRow
    | StartedPod
    | MarkedRow
    | Reaped(left: set<Blob>)

  function Do(w: World, p: Plan, e: Effect): World
  {
    match e
    case CreatedRow => w.(rows := w.rows[p.id := Row(Creating, [])])
    case StoppedPod => w.(running := false)
    case WroteBlob(b) => w.(blobs := w.blobs + {b})
    case CompletedRow => w.(rows := w.rows[p.id := Row(Complete, p.names)])
    case StartedPod => w.(running := true)
    case MarkedRow => w.(rows := w.rows[p.id := Row(Failing, [])])
    case Reaped(left) => w.(blobs := set b | b in w.blobs && (b.id != p.id || b in left))
  }

  function DoAll(w: World, p: Plan, es: seq<Effect>): World
  {
    if es == [] then w else Do(DoAll(w, p, es[..|es| - 1]), p, es[|es| - 1])
  }

  function If(b: bool, e: Effect): seq<Effect>
  {
    if b then [e] else []
  }

  /** The failure path marks only a row that is still being created. */
  function FailEffects(f: Faults, creating: bool): seq<Effect>
  {
    If(creating && f.marked.Happened(), MarkedRow) + [Reaped(if f.cleaned then {} else f.left)]
  }

  function BlobEffects(p: Plan, n: nat): seq<Effect>
    requires p.Valid() && n <= |p.names|
  {
    seq(n, k requires 0 <= k < n => WroteBlob(Blob(p.id, p.names[k], p.patterns[k])))
  }

  function CaptureEffects(p: Plan, wasRunning: bool, f: Faults): seq<Effect>
    requires p.Valid()
  {
    var started := If(wasRunning && f.started.Happened(), StartedPod);
    BlobEffects(p, Exports(p, f))
    + if f.exports < |p.names| then started + FailEffects(f, true)
      else If(f.completed.Happened(), CompletedRow) + started
           + if f.completed.Done? then [] else FailEffects(f, !f.completed.happened)
  }

  /** What the backup does, in order; a crash leaves any prefix of it done. */
  function BackupEffects(w: World, p: Plan, f: Faults): seq<Effect>
    requires p.Valid()
  {
    If(f.found && f.created.Happened(), CreatedRow)
    + if !f.found || f.created.Failed? then []
      else if !f.hook then FailEffects(f, true)
      else If(f.stop.Happened(), StoppedPod)
           + if f.stop.Failed? then FailEffects(f, true) else CaptureEffects(p, w.running, f)
  }

  // ----- All of it done is what the run leaves -----

  lemma {:induction false} DoAllThen(w: World, p: Plan, a: seq<Effect>, b: seq<Effect>)
    ensures DoAll(w, p, a + b) == DoAll(DoAll(w, p, a), p, b)
  {
    if b == [] {
      assert a + b == a;
    } else {
      var n := |b| - 1;
      DoAllThen(w, p, a, b[..n]);
      assert (a + b)[..|a + b| - 1] == a + b[..n];
    }
  }

  lemma DoIf(w: World, p: Plan, b: bool, e: Effect)
    ensures DoAll(w, p, If(b, e)) == if b then Do(w, p, e) else w
  {
    assert [e][..0] == [];
  }

  lemma {:induction false} BlobsAddUp(w: World, p: Plan, n: nat)
    requires p.Valid() && n <= |p.names|
    ensures DoAll(w, p, BlobEffects(p, n)) == w.(blobs := w.blobs + Archives(p, n))
  {
    var es := BlobEffects(p, n);
    if n == 0 {
      assert es == [] && Archives(p, 0) == {};
    } else {
      BlobsAddUp(w, p, n - 1);
      ArchivesNext(p, n - 1);
      assert es[..n - 1] == BlobEffects(p, n - 1);
    }
  }

  lemma FailAddsUp(w: World, p: Plan, f: Faults, creating: bool)
    requires creating <==> p.id in w.rows && w.rows[p.id].state.Creating?
    ensures DoAll(w, p, FailEffects(f, creating)) == FailRun(w, p.id, f)
  {
    var reaped := Reaped(if f.cleaned then {} else f.left);
    var mark := If(creating && f.marked.Happened(), MarkedRow);
    DoAllThen(w, p, mark, [reaped]);
    DoIf(w, p, creating && f.marked.Happened(), MarkedRow);
    DoIf(DoAll(w, p, mark), p, true, reaped);
  }

  lemma StartAddsUp(w: World, p: Plan, wasRunning: bool, f: Faults)
    ensures DoAll(w, p, If(wasRunning && f.started.Happened(), StartedPod)) == StartRun(w, wasRunning, f)
  {
    DoIf(w, p, wasRunning && f.started.Happened(), StartedPod);
  }

  lemma CaptureAddsUp(w: World, p: Plan, wasRunning: bool, f: Faults)
    requires p.Valid() && p.id in w.rows && w.rows[p.id].state.Creating?
    ensures DoAll(w, p, CaptureEffects(p, wasRunning, f)) == CaptureRun(w, p, wasRunning, f).1
  {
    hide Do, DoAll, If, FailEffects, BlobEffects, FailRun, Archives;
    var blobs, started := BlobEffects(p, Exports(p, f)), If(wasRunning && f.started.Happened(), StartedPod);
    BlobsAddUp(w, p, Exports(p, f));
    var w1 := DoAll(w, p, blobs);
    if f.exports < |p.names| {
      var fail := FailEffects(f, true);
      DoAllThen(w, p, blobs, started + fail);
      DoAllThen(w1, p, started, fail);
      StartAddsUp(w1, p, wasRunning, f);
      FailAddsUp(StartRun(w1, wasRunning, f), p, f, true);
    } else {
      var done := If(f.completed.Happened(), CompletedRow);
      var fail := if f.completed.Done? then [] else FailEffects(f, !f.completed.happened);
      assert CaptureEffects(p, wasRunning, f) == blobs + (done + started + fail);
      DoAllThen(w, p, blobs, done + started + fail);
      DoAllThen(w1, p, done + started, fail);
      DoAllThen(w1, p, done, started);
      CompleteAddsUp(w1, p, f);
      var w2 := DoAll(w1, p, done);
      StartAddsUp(w2, p, wasRunning, f);
      DoNothing(DoAll(w2, p, started), p);
      if f.completed.Failed? {
        FailAddsUp(StartRun(w2, wasRunning, f), p, f, !f.completed.happened);
      }
    }
  }

  lemma DoNothing(w: World, p: Plan)
    ensures DoAll(w, p, []) == w
  {
  }

  lemma CompleteAddsUp(w: World, p: Plan, f: Faults)
    ensures DoAll(w, p, If(f.completed.Happened(), CompletedRow)) ==
            if f.completed.Happened() then w.(rows := w.rows[p.id := Row(Complete, p.names)]) else w
  {
    DoIf(w, p, f.completed.Happened(), CompletedRow);
  }

  lemma EffectsAddUp(w: World, p: Plan, f: Faults)
    requires p.Valid() && p.id !in w.rows
    ensures DoAll(w, p, BackupEffects(w, p, f)) == BackupRun(w, p, f).1
  {
    var made, stop := If(f.found && f.created.Happened(), CreatedRow), If(f.stop.Happened(), StoppedPod);
    DoIf(w, p, f.found && f.created.Happened(), CreatedRow);
    var w1 := DoAll(w, p, made);
    DoIf(w1, p, f.stop.Happened(), StoppedPod);
    var w2 := DoAll(w1, p, stop);
    hide DoAll, If, FailEffects, CaptureEffects, FailRun, CaptureRun;
    DoNothing(w1, p);
    DoAllThen(w, p, made, []);
    DoAllThen(w, p, made, FailEffects(f, true));
    DoAllThen(w, p, made, stop + FailEffects(f, true));
    DoAllThen(w, p, made, stop + CaptureEffects(p, w.running, f));
    DoAllThen(w1, p, stop, FailEffects(f, true));
    DoAllThen(w1, p, stop, CaptureEffects(p, w.running, f));
    if f.found && f.created.Done? {
      FailAddsUp(w1, p, f, true);
      FailAddsUp(w2, p, f, true);
      CaptureAddsUp(w2, p, w.running, f);
    }
  }

  // ----- What a crash leaves -----

  function Rank(e: Effect): nat
  {
    match e
    case CreatedRow => 0
    case StoppedPod => 1
    case WroteBlob(_) => 2
    case CompletedRow => 3
    case StartedPod => 4
    case MarkedRow => 5
    case Reaped(_) => 6
  }

  ghost predicate RankedFrom(es: seq<Effect>, lo: nat)
  {
    forall i :: 0 <= i < |es| ==> lo <= Rank(es[i])
  }

  ghost predicate Ranked(es: seq<Effect>)
  {
    forall i, j :: 0 <= i < j < |es| ==> Rank(es[i]) <= Rank(es[j])
  }

  /** One effect put in front. */
  lemma RankedIf(b: bool, e: Effect, es: seq<Effect>)
    requires Ranked(es) && RankedFrom(es, Rank(e))
    ensures Ranked(If(b, e) + es) && RankedFrom(If(b, e) + es, Rank(e))
  {
  }

  lemma FailRanked(f: Faults, creating: bool)
    ensures Ranked(FailEffects(f, creating)) && RankedFrom(FailEffects(f, creating), 5)
  {
    RankedIf(creating && f.marked.Happened(), MarkedRow, [Reaped(if f.cleaned then {} else f.left)]);
  }

  lemma BlobsRanked(p: Plan, n: nat, es: seq<Effect>)
    requires p.Valid() && n <= |p.names| && Ranked(es) && RankedFrom(es, 2)
    ensures Ranked(BlobEffects(p, n) + es) && RankedFrom(BlobEffects(p, n) + es, 2)
  {
  }

  lemma CaptureRanked(p: Plan, wasRunning: bool, f: Faults)
    requires p.Valid()
    ensures Ranked(CaptureEffects(p, wasRunning, f)) && RankedFrom(CaptureEffects(p, wasRunning, f), 2)
  {
    hide If, FailEffects, BlobEffects;
    var start := wasRunning && f.started.Happened();
    var started := If(start, StartedPod);
    FailRanked(f, true);
    FailRanked(f, !f.completed.Happened());
    var fail :=
      if f.exports < |p.names| then FailEffects(f, true)
      else if f.completed.Done? then []
      else FailEffects(f, !f.completed.happened);
    RankedIf(start, StartedPod, fail);
    var rest := started + fail;
    if f.exports >= |p.names| {
      RankedIf(f.completed.Happened(), CompletedRow, rest);
      rest := If(f.completed.Happened(), CompletedRow) + rest;
      assert rest == If(f.completed.Happened(), CompletedRow) + started + fail;
    }
    BlobsRanked(p, Exports(p, f), rest);
    assert CaptureEffects(p, wasRunning, f) == BlobEffects(p, Exports(p, f)) + rest;
  }

  lemma BackupRanked(w: World, p: Plan, f: Faults)
    requires p.Valid()
    ensures Ranked(BackupEffects(w, p, f))
  {
    hide If, FailEffects, CaptureEffects;
    FailRanked(f, true);
    CaptureRanked(p, w.running, f);
    var rest := if f.stop.Failed? then FailEffects(f, true) else CaptureEffects(p, w.running, f);
    RankedIf(f.stop.Happened(), StoppedPod, rest);
    var after :=
      if !f.found || f.created.Failed? then []
      else if !f.hook then FailEffects(f, true)
      else If(f.stop.Happened(), StoppedPod) + rest;
    RankedIf(f.found && f.created.Happened(), CreatedRow, after);
  }

  /** A pod is started again only if it ran; a row is completed only with the pod stopped,
      which happens only with the row there; and no row is both completed and marked. */
  ghost predicate Plausible(w: World, es: seq<Effect>)
  {
    && (StartedPod in es ==> w.running)
    && (CompletedRow in es ==> StoppedPod in es && MarkedRow !in es)
    && (StoppedPod in es ==> CreatedRow in es)
  }

  lemma FailMembers(f: Faults, creating: bool)
    ensures forall e :: e in FailEffects(f, creating) ==> e.Reaped? || (e == MarkedRow && creating)
  {
  }

  lemma Members(a: seq<Effect>, b: seq<Effect>)
    ensures forall e :: e in a + b <==> e in a || e in b
  {
  }

  lemma BlobMembers(p: Plan, n: nat)
    requires p.Valid() && n <= |p.names|
    ensures forall e :: e in BlobEffects(p, n) ==> e.WroteBlob?
  {
  }

  lemma IfMembers(b: bool, x: Effect)
    ensures forall e :: e in If(b, x) <==> b && e == x
  {
  }

  lemma CaptureMembers(p: Plan, wasRunning: bool, f: Faults)
    requires p.Valid()
    ensures var es := CaptureEffects(p, wasRunning, f);
            && CreatedRow !in es && StoppedPod !in es
            && (StartedPod in es ==> wasRunning) && !(CompletedRow in es && MarkedRow in es)
  {
    hide BlobEffects, FailEffects, Exports, If;
    var blobs, started := BlobEffects(p, Exports(p, f)), If(wasRunning && f.started.Happened(), StartedPod);
    var done := If(f.completed.Happened(), CompletedRow);
    BlobMembers(p, Exports(p, f));
    IfMembers(wasRunning && f.started.Happened(), StartedPod);
    IfMembers(f.completed.Happened(), CompletedRow);
    if f.exports < |p.names| {
      FailMembers(f, true);
      Members(started, FailEffects(f, true));
      Members(blobs, started + FailEffects(f, true));
    } else {
      FailMembers(f, !f.completed.Happened());
      var fail := if f.completed.Done? then [] else FailEffects(f, !f.completed.happened);
      Members(done, started);
      Members(done + started, fail);
      Members(blobs, done + started + fail);
    }
  }

  lemma BackupPlausible(w: World, p: Plan, f: Faults)
    requires p.Valid()
    ensures Plausible(w, BackupEffects(w, p, f))
  {
    hide CaptureEffects, FailEffects;
    FailMembers(f, true);
    CaptureMembers(p, w.running, f);
  }

  lemma EarlierToo(es: seq<Effect>, k: nat, a: Effect, b: Effect)
    requires Ranked(es) && k <= |es| && Rank(a) < Rank(b) && a in es && b in es[..k]
    ensures a in es[..k]
  {
    var i :| 0 <= i < |es| && es[i] == a;
    var j :| 0 <= j < k && es[..k][j] == b;
    assert es[j] == b;
    assert i < j;
    assert es[..k][i] == a;
  }

  lemma PrefixPlausible(w: World, es: seq<Effect>, k: nat)
    requires Ranked(es) && Plausible(w, es) && k <= |es|
    ensures Ranked(es[..k]) && Plausible(w, es[..k])
  {
    assert forall i :: 0 <= i < k ==> es[..k][i] == es[i];
    assert forall e :: e in es[..k] ==> e in es;
    if CompletedRow in es[..k] {
      EarlierToo(es, k, StoppedPod, CompletedRow);
    }
    if StoppedPod in es[..k] {
      EarlierToo(es, k, CreatedRow, StoppedPod);
    }
  }

  function RowLeft(p: Plan, es: seq<Effect>): seq<Row>
  {
    if CompletedRow in es then [Row(Complete, p.names)]
    else if MarkedRow in es then [Row(Failing, [])]
    else if CreatedRow in es then [Row(Creating, [])]
    else []
  }

  function RowAt(w: World, id: string): seq<Row>
  {
    if id in w.rows then [w.rows[id]] else []
  }

  ghost predicate PodLeft(w: World, es: seq<Effect>, running: bool)
  {
    running <==> w.running && (StoppedPod in es ==> StartedPod in es)
  }

  lemma PodStep(w: World, p: Plan, u: World, es: seq<Effect>, e: Effect)
    requires PodLeft(w, es, u.running) && (e == StartedPod ==> w.running)
    requires forall x :: x in es ==> Rank(x) <= Rank(e)
    ensures PodLeft(w, es + [e], Do(u, p, e).running)
  {
    assert e == StoppedPod ==> StartedPod !in es;
  }

  lemma RowStep(p: Plan, u: World, es: seq<Effect>, e: Effect)
    requires RowAt(u, p.id) == RowLeft(p, es) && forall x :: x in es ==> Rank(x) <= Rank(e)
    requires !(CompletedRow in es && e == MarkedRow)
    ensures RowAt(Do(u, p, e), p.id) == RowLeft(p, es + [e])
  {
    assert e == CreatedRow ==> CompletedRow !in es && MarkedRow !in es;
  }

  /** Pod and row after any effects in order. */
  lemma {:induction false} LeftBy(w: World, p: Plan, es: seq<Effect>)
    requires p.id !in w.rows && Ranked(es)
    requires (StartedPod in es ==> w.running) && !(CompletedRow in es && MarkedRow in es)
    ensures PodLeft(w, es, DoAll(w, p, es).running) && RowAt(DoAll(w, p, es), p.id) == RowLeft(p, es)
  {
    if es == [] {
    } else {
      var n := |es| - 1;
      var before, e := es[..n], es[n];
      assert es == before + [e];
      NoneAfter(es, n);
      assert Ranked(before);
      hide PodLeft, RowLeft, RowAt, Do, Ranked;
      LeftBy(w, p, before);
      PodStep(w, p, DoAll(w, p, before), before, e);
      RowStep(p, DoAll(w, p, before), before, e);
    }
  }

  lemma NoneAfter(es: seq<Effect>, n: nat)
    requires Ranked(es) && n == |es| - 1
    ensures forall e :: e in es[..n] ==> Rank(e) <= Rank(es[n])
  {
    forall e | e in es[..n] ensures Rank(e) <= Rank(es[n]) {
      var i :| 0 <= i < n && es[..n][i] == e;
    }
  }

  /** A pass that gets through to starting the pod. */
  predicate GoesThrough(g: PassFaults)
  {
    g.read && g.marked.Done? && g.known && g.there && g.started.Done?
  }

  /** After a crash anywhere in a backup and a pass that gets through, the row is complete
      and the pass says so exactly if it had been completed, failed if it had been begun,
      and otherwise absent; and the pod runs exactly if it ran before and nothing had
      happened yet, or the row was begun and not completed, or the start came before the
      crash. */
  lemma CrashThenPass(w: World, p: Plan, f: Faults, k: nat, g: PassFaults)
    requires p.Valid() && p.id !in w.rows && k <= |BackupEffects(w, p, f)| && GoesThrough(g)
    ensures var done := BackupEffects(w, p, f)[..k];
            var (v, w') := ReconcileRun(DoAll(w, p, done), p.id, g);
            && v == Settled(CompletedRow in done)
            && RowAt(w', p.id) == (if CompletedRow in done then [Row(Complete, p.names)]
                                   else if CreatedRow in done || MarkedRow in done then [Row(Failing, [])]
                                   else [])
            && (w'.running <==> if CompletedRow in done then w.running && StartedPod in done
                                else w.running || CreatedRow in done || MarkedRow in done)
  {
    var es := BackupEffects(w, p, f);
    var done := es[..k];
    BackupRanked(w, p, f);
    BackupPlausible(w, p, f);
    PrefixPlausible(w, es, k);
    hide BackupEffects, Ranked;
    LeftBy(w, p, done);
    hide DoAll;
  }

  /** A pod that ran before the backup runs after a crash and such a pass exactly if the
      crash did not come between completing the row and starting the pod. */
  lemma PassBringsPodBackIff(w: World, p: Plan, f: Faults, k: nat, g: PassFaults)
    requires p.Valid() && p.id !in w.rows && k <= |BackupEffects(w, p, f)| && GoesThrough(g) && w.running
    ensures var done := BackupEffects(w, p, f)[..k];
            ReconcileRun(DoAll(w, p, done), p.id, g).1.running <==> !(CompletedRow in done && StartedPod !in done)
  {
    CrashThenPass(w, p, f, k, g);
  }

  /** It does happen, to a backup in which every call succeeds; the pass answers success and
      leaves the pod down. */
  lemma CrashLeavesPodDown(w: World, id: string, volume: string, g: PassFaults)
    requires id !in w.rows && w.running && GoesThrough(g)
    ensures var p := Plan(id, [volume], [[]]);
            && BackupRun(w, p, QUIET).0 && BackupRun(w, p, QUIET).1.running
            && |BackupEffects(w, p, QUIET)| == 5
            && var (v, w') := ReconcileRun(DoAll(w, p, BackupEffects(w, p, QUIET)[..4]), id, g);
               v == Settled(true) && !w'.running
  {
    var p := Plan(id, [volume], [[]]);
    var es := BackupEffects(w, p, QUIET);
    assert es == [CreatedRow, StoppedPod, WroteBlob(Blob(id, volume, [])), CompletedRow, StartedPod];
    assert es[..4] == [CreatedRow, StoppedPod, WroteBlob(Blob(id, volume, [])), CompletedRow];
    PassBringsPodBackIff(w, p, QUIET, 4, g);
    CrashThenPass(w, p, QUIET, 4, g);
    CompleteRowIff(w, p, QUIET);
    PodRunsIff(w, p, QUIET);
  }

  lemma {:induction false} BlobsStayOwn(w: World, p: Plan, es: seq<Effect>)
    requires forall e :: e in es && e.WroteBlob? ==> e.blob.id == p.id
    ensures forall b: Blob :: b.id != p.id ==> (b in DoAll(w, p, es).blobs <==> b in w.blobs)
  {
    if es == [] {
    } else {
      var n := |es| - 1;
      assert es == es[..n] + [es[n]];
      BlobsStayOwn(w, p, es[..n]);
    }
  }

  /** A crash and a pass whose cleanup succeeds leave the backup's blobs only to a complete
      row, and never touch another backup's. */
  lemma PassLeavesNoBlobs(w: World, p: Plan, f: Faults, k: nat, g: PassFaults)
    requires p.Valid() && p.id !in w.rows && k <= |BackupEffects(w, p, f)| && GoesThrough(g) && g.cleaned
    ensures var done := BackupEffects(w, p, f)[..k];
            var w' := ReconcileRun(DoAll(w, p, done), p.id, g).1;
            && (forall b: Blob :: b.id != p.id ==> (b in w'.blobs <==> b in w.blobs))
            && (CreatedRow in done && CompletedRow !in done ==> forall b :: b in w'.blobs ==> b.id != p.id)
  {
    var done := BackupEffects(w, p, f)[..k];
    forall e | e in done && e.WroteBlob? ensures e.blob.id == p.id {
      assert e in BackupEffects(w, p, f);
      OwnBlobs(w, p, f, e);
    }
    BlobsStayOwn(w, p, done);
    BackupRanked(w, p, f);
    BackupPlausible(w, p, f);
    PrefixPlausible(w, BackupEffects(w, p, f), k);
    hide BackupEffects, Ranked;
    LeftBy(w, p, done);
    hide DoAll;
  }

  lemma OwnBlobs(w: World, p: Plan, f: Faults, e: Effect)
    requires p.Valid() && e in BackupEffects(w, p, f) && e.WroteBlob?
    ensures e.blob.id == p.id
  {
    assert e in BlobEffects(p, Exports(p, f));
  }
}
