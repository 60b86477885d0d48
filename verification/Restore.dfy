/** Snapshot restore: replace an instance's volumes from a backup, with every foreign call
    able to fail. Nothing is rolled back, so what matters is what it may destroy. */
module Restore {
  import opened Manifests
  import opened Replies
  import opened Sorting

  datatype BackupVolume = BackupVolume(name: string, manifest: Manifest)

  datatype Event =
    | Locked
    | Preflighted(volume: string)
    | Opened(volume: string)
    | Removed(volume: string)

  /** Where a teardown stopped. */
  datatype Stage = Lookup | PodRemoval | SpecDeletion | IngressRefresh

  datatype Outcome =
    | Rejected
    | TeardownFailed(at: Stage)
    | PostTeardownFailed
    | Restored

  // ----- What becomes of the instance's desired-state row -----

  /** The pod, and the row without which a restore cannot be retried. */
  datatype World = World(pod: bool, spec: bool)

  /** A store may lose replies, or fail only without effect, or not fail. */
  datatype Store = Lossy | Atomic | Reliable

  datatype Config = Config(ingress: bool, store: Store)

  /** How the foreign calls of one restore turn out. A failed apply leaves any pod and row. */
  datatype Faults = Faults(known: bool, removal: Reply, deletion: Reply, refreshed: bool, applied: bool, left: World,
                           running: bool, respec: Reply)

  predicate Admits(store: Store, f: Faults)
  {
    && (store.Atomic? ==> !(f.deletion.Failed? && f.deletion.happened) && !(f.respec.Failed? && f.respec.happened))
    && (store.Reliable? ==> f.deletion.Done? && f.respec.Done?)
  }

  datatype Teardown = Stopped(at: Stage) | Finished

  /** The pod is removed, then the row, then the proxy is refreshed if there is one. */
  function TeardownRun(c: Config, w: World, f: Faults): (Teardown, World)
  {
    if !f.known then (Stopped(Lookup), w)
    else if f.removal.Failed? then (Stopped(PodRemoval), w.(pod := w.pod && !f.removal.happened))
    else if f.deletion.Failed? then (Stopped(SpecDeletion), World(false, w.spec && !f.deletion.happened))
    else if c.ingress && !f.refreshed then (Stopped(IngressRefresh), World(false, false))
    else (Finished, World(false, false))
  }

  /** After the teardown: the volumes, then the pod and its row again, or the row alone. */
  function PostTeardownRun(w: World, f: Faults, imported: bool): (bool, World)
  {
    var w' := if !imported then w else if f.applied then World(true, true) else f.left;
    if imported && f.applied && f.running then (true, w')
    else (false, w'.(spec := w'.spec || f.respec.Happened()))
  }

  /** The whole restore, given whether its checks passed and its volumes were imported.
      Without the row they cannot pass. */
  function RestoreRun(c: Config, w: World, f: Faults, checked: bool, imported: bool): (Outcome, World)
  {
    if !checked || !w.spec then (Rejected, w)
    else
      var (t, w1) := TeardownRun(c, w, f);
      if t.Stopped? then (TeardownFailed(t.at), w1)
      else
        var (ok, w2) := PostTeardownRun(w1, f, imported);
        (if ok then Restored else PostTeardownFailed, w2)
  }

  ghost predicate FailedTeardownKeepsRow(c: Config)
  {
    forall w: World, f :: Admits(c.store, f) && w.spec && TeardownRun(c, w, f).0.Stopped? ==>
      TeardownRun(c, w, f).1.spec
  }

  /** However it fails, a restore that returns leaves the row. */
  ghost predicate FailedRestoreKeepsRow(c: Config)
  {
    forall w: World, f, checked, imported :: Admits(c.store, f) && w.spec ==>
      (RestoreRun(c, w, f, checked, imported).0.Restored? || RestoreRun(c, w, f, checked, imported).1.spec)
  }

  /** The calls of a restore that all succeed. */
  const QUIET := Faults(true, Done, Done, true, true, World(true, true), true, Done)

  /** The proxy refresh comes after the row is gone: the run that strands the instance
      without its row, on every store. */
  lemma RefreshFailureLosesRow(store: Store)
    ensures var c, f := Config(true, store), QUIET.(refreshed := false);
            && Admits(store, f)
            && RestoreRun(c, World(true, true), f, true, true) == (TeardownFailed(IngressRefresh), World(false, false))
  {
  }

  /** A failed teardown never loses the row exactly when there is no proxy to refresh and
      no deletion whose reply can be lost. */
  lemma TeardownKeepsRowIff(c: Config)
    ensures FailedTeardownKeepsRow(c) <==> !c.ingress && !c.store.Lossy?
  {
    var w := World(true, true);
    var unrefreshed, lost := QUIET.(refreshed := false), QUIET.(deletion := Failed(true));
    assert Admits(c.store, unrefreshed) && (c.store.Lossy? ==> Admits(c.store, lost));
    assert c.ingress ==> TeardownRun(c, w, unrefreshed) == (Stopped(IngressRefresh), World(false, false));
    assert TeardownRun(c, w, lost) == (Stopped(SpecDeletion), World(false, false));
  }

  /** A restore that returns with a failure always leaves the row, and so can be retried,
      exactly when there is no proxy to refresh and the store does not fail. */
  lemma RestoreKeepsRowIff(c: Config)
    ensures FailedRestoreKeepsRow(c) <==> !c.ingress && c.store.Reliable?
  {
    var w := World(true, true);
    var unrefreshed := QUIET.(refreshed := false);
    assert Admits(c.store, unrefreshed);
    assert c.ingress ==>
           RestoreRun(c, w, unrefreshed, true, true) == (TeardownFailed(IngressRefresh), World(false, false));
    var unwritten := QUIET.(respec := Failed(false));
    assert !c.store.Reliable? ==> Admits(c.store, unwritten);
    assert RestoreRun(c, w, unwritten, true, false) == (PostTeardownFailed, World(false, false));
  }

  // ----- A daemon that dies during a restore -----

  /** What a restore does to the pod and the row. */
  datatype Effect = RemovedPod | DeletedRow | PlayedPod | WroteRow

  function Do(w: World, e: Effect): World
  {
    match e
    case RemovedPod => w.(pod := false)
    case DeletedRow => w.(spec := false)
    case PlayedPod => w.(pod := true)
    case WroteRow => w.(spec := true)
  }

  function DoAll(w: World, es: seq<Effect>): World
  {
    if es == [] then w else Do(DoAll(w, es[..|es| - 1]), es[|es| - 1])
  }

  function TeardownEffects(f: Faults): seq<Effect>
  {
    if !f.known then []
    else if f.removal.Failed? then if f.removal.happened then [RemovedPod] else []
    else if f.deletion.Happened() then [RemovedPod, DeletedRow]
    else [RemovedPod]
  }

  /** The pod is played before its row is written. */
  function ApplyEffects(f: Faults): seq<Effect>
  {
    (if f.applied || f.left.pod then [PlayedPod] else []) + if f.applied || f.left.spec then [WroteRow] else []
  }

  function RespecEffects(f: Faults): seq<Effect>
  {
    if f.respec.Happened() then [WroteRow] else []
  }

  function PostTeardownEffects(f: Faults, imported: bool): seq<Effect>
  {
    (if imported then ApplyEffects(f) else [])
    + if imported && f.applied && f.running then [] else RespecEffects(f)
  }

  /** What the restore does, in order; a crash leaves any prefix of it done. */
  function RestoreEffects(c: Config, w: World, f: Faults, checked: bool, imported: bool): seq<Effect>
  {
    if !checked || !w.spec then []
    else TeardownEffects(f) + if TeardownRun(c, w, f).0.Stopped? then [] else PostTeardownEffects(f, imported)
  }

  lemma {:induction false} DoAllThen(w: World, a: seq<Effect>, b: seq<Effect>)
    ensures DoAll(w, a + b) == DoAll(DoAll(w, a), b)
  {
    if b == [] {
      assert a + b == a;
    } else {
      var n := |b| - 1;
      DoAllThen(w, a, b[..n]);
      assert (a + b)[..|a + b| - 1] == a + b[..n];
    }
  }

  lemma TeardownAddsUp(c: Config, w: World, f: Faults)
    ensures DoAll(w, TeardownEffects(f)) == TeardownRun(c, w, f).1
  {
    var both := [RemovedPod, DeletedRow];
    assert both[..1] == [RemovedPod] && [RemovedPod][..0] == [];
    assert DoAll(w, [RemovedPod]) == w.(pod := false);
    assert DoAll(w, both) == World(false, false);
  }

  lemma DoOne(w: World, e: Effect)
    ensures DoAll(w, [e]) == Do(w, e)
  {
    assert [e][..0] == [];
  }

  lemma ApplyAddsUp(w: World, f: Faults)
    requires w == World(false, false)
    ensures DoAll(w, ApplyEffects(f)) == if f.applied then World(true, true) else f.left
  {
    var played := if f.applied || f.left.pod then [PlayedPod] else [];
    var wrote := if f.applied || f.left.spec then [WroteRow] else [];
    DoAllThen(w, played, wrote);
    DoOne(w, PlayedPod);
    DoOne(DoAll(w, played), WroteRow);
  }

  lemma PostTeardownAddsUp(w: World, f: Faults, imported: bool)
    requires w == World(false, false)
    ensures DoAll(w, PostTeardownEffects(f, imported)) == PostTeardownRun(w, f, imported).1
  {
    ApplyAddsUp(w, f);
    var applied := if imported then ApplyEffects(f) else [];
    var w1 := DoAll(w, applied);
    DoOne(w1, WroteRow);
    DoAllThen(w, applied, if imported && f.applied && f.running then [] else RespecEffects(f));
    hide ApplyEffects;
  }

  /** All of it done is what the restore leaves. */
  lemma EffectsAddUp(c: Config, w: World, f: Faults, checked: bool, imported: bool)
    ensures DoAll(w, RestoreEffects(c, w, f, checked, imported)) == RestoreRun(c, w, f, checked, imported).1
  {
    hide TeardownEffects, PostTeardownEffects, PostTeardownRun;
    TeardownAddsUp(c, w, f);
    var w1 := TeardownRun(c, w, f).1;
    var rest := if TeardownRun(c, w, f).0.Stopped? then [] else PostTeardownEffects(f, imported);
    DoAllThen(w, TeardownEffects(f), rest);
    if TeardownRun(c, w, f).0.Finished? {
      PostTeardownAddsUp(w1, f, imported);
    }
  }

  /** The row is gone exactly from its deletion to the next write of it. */
  ghost predicate Between(done: seq<Effect>)
  {
    DeletedRow in done && WroteRow !in done
  }

  /** Some effects that at most delete the row once, before they ever write it. */
  ghost predicate DeletesFirst(es: seq<Effect>)
  {
    forall i, j :: 0 <= i < |es| && 0 <= j < |es| && es[i] == WroteRow && es[j] == DeletedRow ==> j < i
  }

  lemma {:induction false} RowAfter(w: World, es: seq<Effect>)
    requires w.spec && DeletesFirst(es)
    ensures DoAll(w, es).spec <==> !Between(es)
  {
    if es == [] {
    } else {
      var n := |es| - 1;
      assert es == es[..n] + [es[n]];
      assert forall i :: 0 <= i < n ==> es[..n][i] == es[i];
      RowAfter(w, es[..n]);
    }
  }

  lemma RestoreDeletesFirst(c: Config, w: World, f: Faults, checked: bool, imported: bool)
    ensures DeletesFirst(RestoreEffects(c, w, f, checked, imported))
  {
    var a, b := TeardownEffects(f), PostTeardownEffects(f, imported);
    assert WroteRow !in a && DeletedRow !in b;
    var es := RestoreEffects(c, w, f, checked, imported);
    assert es == [] || es == a || es == a + b;
    assert forall i :: 0 <= i < |a + b| ==> if i < |a| then (a + b)[i] in a else (a + b)[i] in b;
  }

  lemma PrefixDeletesFirst(es: seq<Effect>, k: nat)
    requires DeletesFirst(es) && k <= |es|
    ensures DeletesFirst(es[..k])
  {
    assert forall i :: 0 <= i < k ==> es[..k][i] == es[i];
  }

  /** A daemon that dies after any number of a restore's effects leaves the row exactly if
      it did not die between the deletion of the row and the next write of it. */
  lemma CrashKeepsRowIff(c: Config, w: World, f: Faults, checked: bool, imported: bool, k: nat)
    requires w.spec && k <= |RestoreEffects(c, w, f, checked, imported)|
    ensures var done := RestoreEffects(c, w, f, checked, imported)[..k];
            DoAll(w, done).spec <==> !Between(done)
  {
    var es := RestoreEffects(c, w, f, checked, imported);
    RestoreDeletesFirst(c, w, f, checked, imported);
    PrefixDeletesFirst(es, k);
    RowAfter(w, es[..k]);
  }

  /** So no crash of a restore can lose the row exactly if its deletion never happens: it is
      refused, or its teardown fails first. */
  lemma NoCrashLosesRowIff(c: Config, w: World, f: Faults, checked: bool, imported: bool)
    requires w.spec
    ensures (forall k :: 0 <= k <= |RestoreEffects(c, w, f, checked, imported)| ==>
               DoAll(w, RestoreEffects(c, w, f, checked, imported)[..k]).spec)
            <==> !(checked && f.known && f.removal.Done? && f.deletion.Happened())
  {
    var es := RestoreEffects(c, w, f, checked, imported);
    assert DeletedRow !in PostTeardownEffects(f, imported);
    forall k | 0 <= k <= |es| ensures DoAll(w, es[..k]).spec <==> !Between(es[..k]) {
      CrashKeepsRowIff(c, w, f, checked, imported, k);
    }
    if checked && f.known && f.removal.Done? && f.deletion.Happened() {
      assert es[..2] == [RemovedPod, DeletedRow];
      assert Between(es[..2]);
    } else {
      forall k | 0 <= k <= |es| ensures DoAll(w, es[..k]).spec {
        assert DeletedRow !in es;
      }
    }
  }

  /** It does happen, without a proxy, on a store that does not fail, to a restore in which
      every call succeeds; and then every retry is refused. */
  lemma CrashStrandsInstance()
    ensures var c, w := Config(false, Reliable), World(true, true);
            && Admits(Reliable, QUIET)
            && RestoreRun(c, w, QUIET, true, true).0 == Restored
            && |RestoreEffects(c, w, QUIET, true, true)| > 2
            && var dead := DoAll(w, RestoreEffects(c, w, QUIET, true, true)[..2]);
               && dead == World(false, false)
               && forall f, checked, imported :: RestoreRun(c, dead, f, checked, imported) == (Rejected, dead)
  {
    var c, w := Config(false, Reliable), World(true, true);
    var es := RestoreEffects(c, w, QUIET, true, true);
    assert es[..2] == [RemovedPod, DeletedRow];
    TeardownAddsUp(c, w, QUIET);
  }

  // ----- When a restore is let in, and when it succeeds -----

  /** What a check of a request comes upon; `readable`: whose blobs can be opened. */
  datatype Admission = Admission(enabled: bool, rowRead: bool, complete: bool, hostKnown: bool, draining: bool,
                                 specRead: bool, readable: string -> bool)

  /** How the calls for one volume turn out, and what an export of it shows afterwards. */
  datatype Import = Import(found: bool, removed: Reply, created: Reply, streamed: bool, content: Manifest,
                           loaded: bool, exported: bool)

  /** What a restore comes upon: at its check before the lock, at the one under it, reading
      the row again, and at each of the backup's volumes. */
  datatype Calls = Calls(before: Admission, locked: Admission, reread: bool, volume: nat -> Import)

  predicate Passes(a: Admission, spec: bool, vs: seq<BackupVolume>)
  {
    && a.enabled && a.rowRead && a.complete && a.hostKnown && !a.draining && a.specRead && spec
    && forall k :: 0 <= k < |vs| ==> a.readable(vs[k].name)
  }

  predicate Checked(vs: seq<BackupVolume>, calls: Calls, spec: bool)
  {
    Passes(calls.before, spec, vs) && Passes(calls.locked, spec, vs) && calls.reread
  }

  /** Every call went through and the volume shows what was recorded. */
  predicate Arrives(bv: BackupVolume, i: Import)
  {
    && i.found && i.removed.Done? && i.created.Done? && i.streamed && i.loaded && i.exported
    && i.content == Strip(bv.manifest)
  }

  predicate AllArrive(vs: seq<BackupVolume>, calls: Calls)
  {
    forall k :: 0 <= k < |vs| ==> Arrives(vs[k], calls.volume(k))
  }

  /** No check turns the request away. */
  ghost predicate LetIn(a: Admission)
  {
    a.enabled && a.rowRead && a.complete && a.hostKnown && !a.draining && a.specRead
  }

  /** The calls of one volume. */
  ghost predicate Flawless(i: Import)
  {
    i.found && i.removed == Done && i.created == Done && i.streamed && i.loaded && i.exported
  }

  /** Every call a restore makes succeeds; the proxy's only if there is one. */
  ghost predicate NothingFails(c: Config, f: Faults, vs: seq<BackupVolume>, calls: Calls)
  {
    && LetIn(calls.before) && LetIn(calls.locked) && calls.reread
    && f.known && f.removal == Done && f.deletion == Done && (c.ingress ==> f.refreshed) && f.applied && f.running
    && forall k :: 0 <= k < |vs| ==>
      calls.before.readable(vs[k].name) && calls.locked.readable(vs[k].name) && Flawless(calls.volume(k))
  }

  /** Every blob holds what its manifest recorded, marker entries aside. */
  ghost predicate Matching(vs: seq<BackupVolume>, calls: Calls)
  {
    forall k :: 0 <= k < |vs| ==> calls.volume(k).content == Strip(vs[k].manifest)
  }

  /** A restore succeeds exactly when the row is there, no call fails and every blob holds
      what was recorded; and then the instance has its pod and its row. */
  lemma RestoredIff(c: Config, w: World, f: Faults, vs: seq<BackupVolume>, calls: Calls)
    ensures var (r, w') := RestoreRun(c, w, f, Checked(vs, calls, w.spec), AllArrive(vs, calls));
            && (r.Restored? <==> w.spec && NothingFails(c, f, vs, calls) && Matching(vs, calls))
            && (r.Restored? ==> w' == World(true, true))
            && (r.Rejected? <==> !Checked(vs, calls, w.spec))
  {
    ChecksIff(vs, calls, w.spec);
    ArriveIff(vs, calls);
    hide Checked, AllArrive, LetIn, Matching, Flawless;
  }

  lemma ChecksIff(vs: seq<BackupVolume>, calls: Calls, spec: bool)
    ensures Checked(vs, calls, spec) <==>
            && spec && LetIn(calls.before) && LetIn(calls.locked) && calls.reread
            && forall k :: 0 <= k < |vs| ==>
              calls.before.readable(vs[k].name) && calls.locked.readable(vs[k].name)
  {
  }

  lemma ArriveIff(vs: seq<BackupVolume>, calls: Calls)
    ensures AllArrive(vs, calls) <==>
            Matching(vs, calls) && forall k :: 0 <= k < |vs| ==> Flawless(calls.volume(k))
  {
    hide Strip;
    assert forall k :: 0 <= k < |vs| ==>
      (Arrives(vs[k], calls.volume(k)) <==>
        Flawless(calls.volume(k)) && calls.volume(k).content == Strip(vs[k].manifest));
    hide Arrives, Flawless;
  }

  lemma NoRowNoPass(a: Admission, vs: seq<BackupVolume>)
    ensures !Passes(a, false, vs)
  {
  }

  // ----- The volumes -----

  /** What the calls for one volume leave of it. */
  function ImportOne(m: map<string, Manifest>, name: string, i: Import): map<string, Manifest>
  {
    if !i.found then m
    else
      var gone := if i.removed.Happened() then m - {name} else m;
      if i.removed.Failed? then gone
      else if i.created.Done? then gone[name := i.content]
      else if i.created.Happened() then gone[name := map[]]
      else gone
  }

  /** A volume that was there is missing afterwards exactly when its blob was found, its
      removal took effect and its creation was not reached or did not; when all three calls
      succeed it holds what was imported, and when neither takes effect it is as it was. */
  lemma MissingIff(m: map<string, Manifest>, name: string, i: Import)
    ensures var m' := ImportOne(m, name, i);
            && (name in m && name !in m' <==>
                name in m && i.found && i.removed.Happened() && !(i.removed.Done? && i.created.Happened()))
            && (i.found && i.removed.Done? && i.created.Done? ==> m' == m[name := i.content])
            && (!i.found || i.removed == Failed(false) ==> m' == m)
            && (i.found && i.removed.Done? && i.created == Failed(true) ==> m' == m[name := map[]])
  {
  }

  /** What the restore leaves of the volumes from the `k`th on: each in turn, until one does
      not arrive. */
  function ImportAll(m: map<string, Manifest>, vs: seq<BackupVolume>, calls: Calls, k: nat): map<string, Manifest>
    requires k <= |vs|
    decreases |vs| - k
  {
    if k == |vs| then m
    else
      var m' := ImportOne(m, vs[k].name, calls.volume(k));
      if Arrives(vs[k], calls.volume(k)) then ImportAll(m', vs, calls, k + 1) else m'
  }

  function NameList(vs: seq<BackupVolume>): seq<string>
  {
    seq(|vs|, k requires 0 <= k < |vs| => vs[k].name)
  }

  function Names(vs: seq<BackupVolume>): set<string>
  {
    set k | 0 <= k < |vs| :: vs[k].name
  }

  /** The whole backup was found readable after the lock was taken. */
  ghost predicate Cleared(log: seq<Event>, names: set<string>)
  {
    exists l :: 0 <= l < |log| && log[l].Locked? && forall n :: n in names ==> Preflighted(n) in log[l..]
  }

  /** Every removal is of a backed-up volume, after the whole backup was cleared and
      after that volume's own blob was readable. */
  ghost predicate Guarded(log: seq<Event>, names: set<string>)
  {
    forall k :: 0 <= k < |log| && log[k].Removed? ==>
      log[k].volume in names && Opened(log[k].volume) in log[..k] && Cleared(log[..k], names)
  }

  lemma GuardedNext(log: seq<Event>, names: set<string>, e: Event)
    requires Guarded(log, names)
    requires e.Removed? ==> e.volume in names && Opened(e.volume) in log && Cleared(log, names)
    ensures Guarded(log + [e], names)
  {
    var all := log + [e];
    forall k | 0 <= k < |all| && all[k].Removed?
      ensures all[k].volume in names && Opened(all[k].volume) in all[..k] && Cleared(all[..k], names)
    {
      assert all[..k] == log[..k];
      assert log[..|log|] == log;
    }
  }

  lemma NothingGuarded(names: set<string>)
    ensures Guarded([], names)
  {
  }

  lemma ClearedSince(log: seq<Event>, names: set<string>, start: nat)
    requires start < |log| && log[start].Locked? && forall n :: n in names ==> Preflighted(n) in log[start + 1..]
    ensures Cleared(log, names)
  {
    assert log[start + 1..] == log[start..][1..];
  }

  lemma ClearedNext(log: seq<Event>, names: set<string>, e: Event)
    requires Cleared(log, names)
    ensures Cleared(log + [e], names)
  {
    var l :| 0 <= l < |log| && log[l].Locked? && forall n :: n in names ==> Preflighted(n) in log[l..];
    assert (log + [e])[l..] == log[l..] + [e];
  }

  /** Whatever a restore removed or replaced, it is on record that it was removed. */
  ghost predicate Logged(log: seq<Event>, before: map<string, Manifest>, after: map<string, Manifest>)
  {
    forall n :: n in before && (n !in after || after[n] != before[n]) ==> Removed(n) in log
  }

  class Service {
    const config: Config
    /** The host's volumes, by the manifest an export of each would have. */
    var volumes: map<string, Manifest>
    var pod: bool
    /** Whether the instance's desired-state row exists. */
    var spec: bool
    /** What this restore has done so far. */
    var log: seq<Event>
    /** What it has done to the pod and the row; a crash comes after any of it. */
    ghost var effects: seq<Effect>

    constructor (config: Config, volumes: map<string, Manifest>, pod: bool, spec: bool)
      ensures this.config == config && this.volumes == volumes && View() == World(pod, spec)
      ensures log == [] && effects == []
    {
      this.config, this.volumes, this.pod, this.spec, log, effects := config, volumes, pod, spec, [], [];
    }

    function View(): World
      reads this
    {
      World(pod, spec)
    }

    /** One effect on the pod or the row. */
    method Take(e: Effect)
      modifies `pod, `spec, `effects
      ensures View() == Do(old(View()), e) && effects == old(effects) + [e]
    {
      match e {
        case RemovedPod => pod := false;
        case DeletedRow => spec := false;
        case PlayedPod => pod := true;
        case WroteRow => spec := true;
      }
      effects := effects + [e];
    }

    method Record(e: Event, ghost names: set<string>)
      requires Guarded(log, names)
      requires e.Removed? ==> e.volume in names && Opened(e.volume) in log && Cleared(log, names)
      modifies `log
      ensures log == old(log) + [e] && Guarded(log, names)
      ensures old(Cleared(log, names)) ==> Cleared(log, names)
    {
      GuardedNext(log, names, e);
      if Cleared(log, names) {
        ClearedNext(log, names, e);
      }
      log := log + [e];
    }

    /** Opens and closes every blob. */
    method PreflightBlobs(vs: seq<BackupVolume>, a: Admission) returns (ok: bool)
      requires Guarded(log, Names(vs))
      modifies `log
      ensures Guarded(log, Names(vs))
      ensures old(log) <= log
      ensures ok <==> forall k :: 0 <= k < |vs| ==> a.readable(vs[k].name)
      ensures ok ==> forall n :: n in Names(vs) ==> Preflighted(n) in log[|old(log)|..]
    {
      ghost var start := |log|;
      for k := 0 to |vs|
        invariant Guarded(log, Names(vs)) && old(log) <= log
        invariant forall j :: 0 <= j < k ==> a.readable(vs[j].name) && Preflighted(vs[j].name) in log[start..]
      {
        if !a.readable(vs[k].name) {
          return false;
        }
        ghost var before := log;
        Record(Preflighted(vs[k].name), Names(vs));
        assert log[start..] == before[start..] + [Preflighted(vs[k].name)];
      }
      return true;
    }

    /** Passes exactly when the backup is complete, the host usable, the row present and
        every blob readable. */
    method CheckRestorable(vs: seq<BackupVolume>, a: Admission) returns (ok: bool)
      requires Guarded(log, Names(vs))
      modifies `log
      ensures Guarded(log, Names(vs)) && old(log) <= log
      ensures ok <==> Passes(a, spec, vs)
      ensures ok ==> forall n :: n in Names(vs) ==> Preflighted(n) in log[|old(log)|..]
    {
      if !a.enabled {
        return false;
      }
      if !a.rowRead {
        return false;
      }
      if !a.complete {
        return false;
      }
      if !a.hostKnown {
        return false;
      }
      if a.draining {
        return false;
      }
      if !a.specRead || !spec {
        return false;
      }
      ok := PreflightBlobs(vs, a);
    }

    /** Removes the pod, then the row, then refreshes the proxy; no volume is pruned. */
    method Delete(f: Faults) returns (t: Teardown)
      modifies `pod, `spec, `effects
      ensures (t, View()) == TeardownRun(config, old(View()), f)
      ensures effects == old(effects) + TeardownEffects(f)
      ensures t.Finished? ==> View() == World(false, false)
    {
      if !f.known {
        return Stopped(Lookup);
      }
      if f.removal.Happened() {
        Take(RemovedPod);
      }
      if f.removal.Failed? {
        return Stopped(PodRemoval);
      }
      if f.deletion.Happened() {
        Take(DeletedRow);
      }
      if f.deletion.Failed? {
        return Stopped(SpecDeletion);
      }
      if config.ingress {
        if !f.refreshed {
          return Stopped(IngressRefresh);
        }
      }
      return Finished;
    }

    /** The pod and its row again, as far as the apply gets. */
    method Apply(f: Faults) returns (ok: bool)
      requires View() == World(false, false)
      modifies `pod, `spec, `effects
      ensures View() == if f.applied then World(true, true) else f.left
      ensures effects == old(effects) + ApplyEffects(f) && ok == (f.applied && f.running)
    {
      if f.applied || f.left.pod {
        Take(PlayedPod);
      }
      if f.applied || f.left.spec {
        Take(WroteRow);
      }
      return f.applied && f.running;
    }

    /** Replaces a volume whose blob is in hand, with no pod left to use it. A call that
        fails may have taken effect, and what a failing import leaves is arbitrary. */
    method Replace(name: string, i: Import, ghost names: set<string>) returns (ok: bool)
      requires !pod && name in names && Opened(name) in log && Guarded(log, names) && Cleared(log, names) && i.found
      modifies `volumes, `log
      ensures Guarded(log, names) && Cleared(log, names) && old(log) <= log
      ensures volumes == ImportOne(old(volumes), name, i)
      ensures ok <==> i.removed.Done? && i.created.Done? && i.streamed
      ensures Logged(log, old(volumes), volumes)
    {
      hide Guarded, Cleared;
      if i.removed.Happened() {
        if name in volumes {
          Record(Removed(name), names);
        }
        volumes := volumes - {name};
      }
      if i.removed.Failed? {
        return false;
      }
      if i.created.Happened() {
        volumes := volumes[name := map[]];
      }
      if i.created.Failed? {
        return false;
      }
      volumes := volumes[name := i.content];
      return i.streamed;
    }

    /** Recreates one volume from its blob and compares what an export now shows with the
        recorded manifest. */
    method RestoreVolume(bv: BackupVolume, i: Import, ghost names: set<string>) returns (ok: bool)
      requires !pod && bv.name in names && Guarded(log, names) && Cleared(log, names)
      modifies `volumes, `log
      ensures Guarded(log, names) && Cleared(log, names) && old(log) <= log
      ensures volumes == ImportOne(old(volumes), bv.name, i)
      ensures ok <==> Arrives(bv, i)
      ensures ok ==> bv.name in volumes && volumes[bv.name] == Strip(bv.manifest)
      ensures Logged(log, old(volumes), volumes)
    {
      hide Guarded, Cleared, Strip;
      if !i.found {
        return false;
      }
      Record(Opened(bv.name), names);
      ok := Replace(bv.name, i, names);
      if !ok {
        return;
      }
      if !i.loaded || !i.exported {
        return false;
      }
      var diff, equal := FirstDiff(Strip(bv.manifest), volumes[bv.name]);
      return equal;
    }

    /** Every listed volume in turn, until one fails. */
    method RestoreVolumes(vs: seq<BackupVolume>, calls: Calls) returns (ok: bool)
      requires !pod && Guarded(log, Names(vs)) && Cleared(log, Names(vs))
      modifies `volumes, `log
      ensures Guarded(log, Names(vs)) && old(log) <= log
      ensures volumes == ImportAll(old(volumes), vs, calls, 0)
      ensures ok <==> AllArrive(vs, calls)
      ensures Logged(log, old(volumes), volumes)
    {
      hide Guarded, Cleared, Strip, Arrives, ImportOne;
      for k := 0 to |vs|
        invariant Guarded(log, Names(vs)) && Cleared(log, Names(vs)) && old(log) <= log
        invariant ImportAll(volumes, vs, calls, k) == ImportAll(old(volumes), vs, calls, 0)
        invariant forall j :: 0 <= j < k ==> Arrives(vs[j], calls.volume(j))
        invariant Logged(log, old(volumes), volumes)
      {
        ok := RestoreVolume(vs[k], calls.volume(k), Names(vs));
        if !ok {
          return false;
        }
      }
      return true;
    }

    /** In every run, however it ends: removals are guarded, volumes outside the backup
        are untouched, a rejected request or a failed teardown touches none, and success
        means every listed volume shows its recorded manifest. When it succeeds and what
        becomes of the pod and the row is `RestoreRun`, by the effects listed in
        `RestoreEffects`. */
    method Restore(vs: seq<BackupVolume>, calls: Calls, f: Faults) returns (r: Outcome)
      requires log == [] && effects == []
      modifies this
      ensures Guarded(log, Names(vs)) && Logged(log, old(volumes), volumes)
      ensures volumes - Names(vs) == old(volumes) - Names(vs)
      ensures volumes == if r.Rejected? || r.TeardownFailed? then old(volumes)
                         else ImportAll(old(volumes), vs, calls, 0)
      ensures r.Restored? && Distinct(NameList(vs)) ==> Shows(vs, volumes)
      ensures r.Restored? <==> old(spec) && NothingFails(config, f, vs, calls) && Matching(vs, calls)
      ensures var checked, imported := Checked(vs, calls, old(spec)), AllArrive(vs, calls);
              && (r, View()) == RestoreRun(config, old(View()), f, checked, imported)
              && effects == RestoreEffects(config, old(View()), f, checked, imported)
    {
      hide Guarded, Cleared, TeardownRun, TeardownEffects, ApplyEffects, Shows, Names, NameList, Passes, AllArrive,
           ImportAll, NothingFails, Matching;
      RestoredIff(config, View(), f, vs, calls);
      NothingGuarded(Names(vs));
      NoRowNoPass(calls.before, vs);
      var ok := CheckRestorable(vs, calls.before);
      if !ok {
        return Rejected;
      }
      Record(Locked, Names(vs));
      ghost var start := |log| - 1;
      ok := CheckRestorable(vs, calls.locked);
      if !ok || !calls.reread {
        return Rejected;
      }
      ClearedSince(log, Names(vs), start);
      var t := Delete(f);
      if t.Stopped? {
        return TeardownFailed(t.at);
      }
      ok := RestoreVolumes(vs, calls);
      ImportedVolumes(old(volumes), vs, calls);
      if ok {
        ok := Apply(f);
      }
      if !ok {
        if f.respec.Happened() {
          Take(WroteRow);
        }
        return PostTeardownFailed;
      }
      return Restored;
    }
  }

  /** Each backed-up volume holds what its manifest recorded. */
  ghost predicate Shows(vs: seq<BackupVolume>, volumes: map<string, Manifest>)
  {
    forall k :: 0 <= k < |vs| ==> vs[k].name in volumes && volumes[vs[k].name] == Strip(vs[k].manifest)
  }

  lemma ImportOneTouches(m: map<string, Manifest>, name: string, i: Import, names: set<string>)
    requires name in names
    ensures ImportOne(m, name, i) - {name} == m - {name}
    ensures ImportOne(m, name, i) - names == m - names
  {
    assert forall x: map<string, Manifest> :: x - names == (x - {name}) - names;
  }

  lemma {:induction false} ImportTouches(m: map<string, Manifest>, vs: seq<BackupVolume>, calls: Calls, k: nat)
    requires k <= |vs|
    ensures ImportAll(m, vs, calls, k) - Names(vs) == m - Names(vs)
    decreases |vs| - k
  {
    hide Arrives, ImportOne;
    if k == |vs| {
    } else {
      ImportOneTouches(m, vs[k].name, calls.volume(k), Names(vs));
      ImportTouches(ImportOne(m, vs[k].name, calls.volume(k)), vs, calls, k + 1);
    }
  }

  /** Once a volume does not arrive, no later one is touched. */
  lemma {:induction false} ImportStops(m: map<string, Manifest>, vs: seq<BackupVolume>, calls: Calls, j: nat, k: nat)
    requires j <= k < |vs| && !Arrives(vs[k], calls.volume(k))
    ensures ImportAll(m, vs, calls, j) - Names(vs[..k + 1]) == m - Names(vs[..k + 1])
    decreases k - j
  {
    hide Arrives, ImportOne;
    var names := Names(vs[..k + 1]);
    assert vs[..k + 1][j].name in names;
    ImportOneTouches(m, vs[j].name, calls.volume(j), names);
    if j == k {
    } else {
      ImportStops(ImportOne(m, vs[j].name, calls.volume(j)), vs, calls, j + 1, k);
    }
  }

  lemma {:induction false} ImportShows(m: map<string, Manifest>, vs: seq<BackupVolume>, calls: Calls, k: nat)
    requires k <= |vs| && Distinct(NameList(vs)) && AllArrive(vs, calls) && Shows(vs[..k], m)
    ensures Shows(vs, ImportAll(m, vs, calls, k))
    decreases |vs| - k
  {
    if k == |vs| {
      assert vs[..k] == vs;
    } else {
      var m' := ImportOne(m, vs[k].name, calls.volume(k));
      assert Arrives(vs[k], calls.volume(k));
      ImportOneTouches(m, vs[k].name, calls.volume(k), {vs[k].name});
      forall j | 0 <= j < k + 1 ensures vs[j].name in m' && m'[vs[j].name] == Strip(vs[j].manifest) {
        if j < k {
          assert vs[..k][j] == vs[j];
          assert NameList(vs)[j] != NameList(vs)[k];
          assert vs[j].name in m - {vs[k].name};
        }
      }
      assert Shows(vs[..k + 1], m');
      ImportShows(m', vs, calls, k + 1);
    }
  }

  lemma ImportedVolumes(m: map<string, Manifest>, vs: seq<BackupVolume>, calls: Calls)
    ensures ImportAll(m, vs, calls, 0) - Names(vs) == m - Names(vs)
    ensures AllArrive(vs, calls) && Distinct(NameList(vs)) ==> Shows(vs, ImportAll(m, vs, calls, 0))
  {
    ImportTouches(m, vs, calls, 0);
    if AllArrive(vs, calls) && Distinct(NameList(vs)) {
      ImportShows(m, vs, calls, 0);
    }
  }
}
