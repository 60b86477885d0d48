/** Fair claiming in the reserved worker pool: least recently served kind first. */
module KindRotation {
  import opened Sorting

  type Kind = string

  datatype Job = Job(id: nat, kind: Kind)

  /** When each kind was last served; a kind never served counts as 0. */
  datatype Served = Served(seq_: nat, last: map<Kind, nat>)

  function Last(r: Served, k: Kind): nat
  {
    if k in r.last then r.last[k] else 0
  }

  function ServedAt(r: Served, n: nat): Kind -> bool
  {
    k => Last(r, k) == n
  }

  function Serve(r: Served, k: Kind): Served
  {
    Served(r.seq_ + 1, r.last[k := r.seq_ + 1])
  }

  ghost predicate Valid(r: Served)
  {
    forall k :: Last(r, k) <= r.seq_
  }

  predicate HasJob(queue: seq<Job>, k: Kind)
  {
    exists i :: 0 <= i < |queue| && queue[i].kind == k
  }

  /** A kind the rotation may serve next: it has a job, and no other kind with one was
      served longer ago. */
  ghost predicate Due(r: Served, kinds: seq<Kind>, queue: seq<Job>, k: Kind)
  {
    k in kinds && HasJob(queue, k) && forall o :: o in kinds && HasJob(queue, o) ==> Last(r, k) <= Last(r, o)
  }

  datatype Claim = Claimed(job: Job) | NothingQueued | StoreError

  /** The rotation over a job queue, oldest job first. */
  class Pool {
    var seq_: nat
    var last: map<Kind, nat>
    var queue: seq<Job>

    function View(): Served
      reads this
    {
      Served(seq_, last)
    }

    constructor (queue: seq<Job>)
      ensures View() == Served(0, map[]) && this.queue == queue
    {
      seq_, last, this.queue := 0, map[], queue;
    }

    /** The kinds, least recently served first; ties keep the given order. */
    method Order(kinds: seq<Kind>) returns (out: seq<Kind>)
      ensures multiset(out) == multiset(kinds)
      ensures forall i, j :: 0 <= i < j < |out| ==> Last(View(), out[i]) <= Last(View(), out[j])
      ensures forall n: nat :: Filter(out, ServedAt(View(), n)) == Filter(kinds, ServedAt(View(), n))
    {
      var r := View();
      var le := (a: Kind, b: Kind) => Last(r, a) <= Last(r, b);
      SortSorted(kinds, le);
      out := Sort(kinds, le);
      forall n: nat ensures Filter(out, ServedAt(r, n)) == Filter(kinds, ServedAt(r, n)) {
        SortStable(kinds, le, ServedAt(r, n));
      }
    }

    method MarkServed(kind: Kind)
      modifies `seq_, `last
      ensures View() == Serve(old(View()), kind)
    {
      seq_ := seq_ + 1;
      last := last[kind := seq_];
    }

    /** Takes the oldest queued job of one kind. */
    method ClaimNextMatching(kind: Kind) returns (found: bool, job: Job)
      modifies `queue
      ensures found <==> HasJob(old(queue), kind)
      ensures !found ==> queue == old(queue)
      ensures found ==> job.kind == kind
      ensures found ==>
              exists i: nat :: IsOldest(old(queue), kind, i, job)
                               && queue == old(queue)[..i] + old(queue)[i + 1..]
    {
      job := Job(0, kind);
      for i := 0 to |queue|
        invariant queue == old(queue) && forall j :: 0 <= j < i ==> queue[j].kind != kind
      {
        if queue[i].kind == kind {
          job := queue[i];
          assert IsOldest(queue, kind, i, job);
          queue := queue[..i] + queue[i + 1..];
          return true, job;
        }
      }
      return false, job;
    }

    /** Claims the oldest job of a due kind and moves that kind to the back; claims nothing
        exactly when no kind has a job, unless the store fails to answer for one. */
    method ClaimRotating(kinds: seq<Kind>, fails: Kind -> bool) returns (c: Claim)
      modifies this
      ensures c.Claimed? ==> Due(old(View()), kinds, old(queue), c.job.kind) && View() == Serve(old(View()), c.job.kind)
      ensures c.Claimed? ==>
              exists i: nat :: IsOldest(old(queue), c.job.kind, i, c.job)
                               && queue == old(queue)[..i] + old(queue)[i + 1..]
      ensures c.Claimed? ==> !fails(c.job.kind)
      ensures c.NothingQueued? ==> forall k :: k in kinds ==> !HasJob(queue, k) && !fails(k)
      ensures c.StoreError? ==> exists k :: k in kinds && fails(k)
      ensures !c.Claimed? ==> View() == old(View()) && queue == old(queue)
    {
      var order := Order(kinds);
      assert forall k :: k in kinds <==> k in order by {
        assert forall k :: k in order <==> k in multiset(order);
        assert forall k :: k in kinds <==> k in multiset(kinds);
      }
      for i := 0 to |order|
        invariant queue == old(queue) && View() == old(View())
        invariant forall j :: 0 <= j < i ==> !HasJob(queue, order[j]) && !fails(order[j])
      {
        if fails(order[i]) {
          assert order[i] in kinds;
          return StoreError;
        }
        var found, job := ClaimNextMatching(order[i]);
        if found {
          MarkServed(order[i]);
          return Claimed(job);
        }
      }
      return NothingQueued;
    }
  }

  ghost predicate IsOldest(queue: seq<Job>, kind: Kind, i: nat, job: Job)
  {
    i < |queue| && queue[i] == job && job.kind == kind && forall j :: 0 <= j < i ==> queue[j].kind != kind
  }

  // ----- Fairness -----

  /** One successful claim, with whatever was queued at that moment. */
  datatype Round = Round(queue: seq<Job>, kind: Kind)

  /** The kind waits: it has a job throughout, and every claim goes to another kind. */
  ghost predicate Waits(r: Served, kinds: seq<Kind>, waiting: Kind, rounds: seq<Round>)
    decreases |rounds|
  {
    rounds == [] ||
    (&& HasJob(rounds[0].queue, waiting)
     && Due(r, kinds, rounds[0].queue, rounds[0].kind)
     && rounds[0].kind != waiting
     && Waits(Serve(r, rounds[0].kind), kinds, waiting, rounds[1..]))
  }

  /** The kinds that may still be served before it. */
  function Ahead(r: Served, kinds: seq<Kind>, waiting: Kind): set<Kind>
  {
    set k | k in kinds && k != waiting && Last(r, k) <= Last(r, waiting)
  }

  lemma {:induction false} WaitIsBounded(r: Served, kinds: seq<Kind>, waiting: Kind, rounds: seq<Round>)
    requires Valid(r) && waiting in kinds && Waits(r, kinds, waiting, rounds)
    ensures |rounds| <= |Ahead(r, kinds, waiting)|
    decreases |rounds|
  {
    if rounds == [] {
    } else {
      var k := rounds[0].kind;
      var r' := Serve(r, k);
      assert forall o :: Last(r', o) == if o == k then r.seq_ + 1 else Last(r, o);
      WaitIsBounded(r', kinds, waiting, rounds[1..]);
      assert Ahead(r', kinds, waiting) == Ahead(r, kinds, waiting) - {k};
      assert k in Ahead(r, kinds, waiting);
    }
  }

  lemma {:induction false} SizeOfOthers(kinds: seq<Kind>, waiting: Kind)
    requires Distinct(kinds) && waiting in kinds
    ensures |set k | k in kinds && k != waiting| == |kinds| - 1
  {
    var n := |kinds| - 1;
    if waiting == kinds[n] {
      assert (set k | k in kinds && k != waiting) == (set k | k in kinds[..n]);
      DistinctSize(kinds[..n]);
    } else {
      assert (set k | k in kinds && k != waiting) == (set k | k in kinds[..n] && k != waiting) + {kinds[n]};
      SizeOfOthers(kinds[..n], waiting);
    }
  }

  /** Whatever arrives, a kind that keeps a job queued waits through at most one claim of
      each other kind. */
  lemma RotationIsFair(r: Served, kinds: seq<Kind>, waiting: Kind, rounds: seq<Round>)
    requires Valid(r) && Distinct(kinds) && waiting in kinds && Waits(r, kinds, waiting, rounds)
    ensures |rounds| <= |kinds| - 1
  {
    WaitIsBounded(r, kinds, waiting, rounds);
    SizeOfOthers(kinds, waiting);
    SubsetSize(Ahead(r, kinds, waiting), set k | k in kinds && k != waiting);
  }

  lemma SubsetSize(a: set<Kind>, b: set<Kind>)
    requires a <= b
    ensures |a| <= |b|
  {
    assert b == a + (b - a);
  }

  /** One job of each kind. */
  function OneOfEach(kinds: seq<Kind>): seq<Job>
  {
    seq(|kinds|, i requires 0 <= i < |kinds| => Job(i, kinds[i]))
  }

  /** The bound is reached: with a job of every kind always queued, the last kind in the
      order waits for each of the others once. */
  lemma {:induction false} FairnessIsTight(r: Served, kinds: seq<Kind>, j: nat) returns (rounds: seq<Round>)
    requires Distinct(kinds) && j < |kinds|
    requires r.seq_ == j && forall i :: 0 <= i < |kinds| ==> Last(r, kinds[i]) == if i < j then i + 1 else 0
    ensures Waits(r, kinds, kinds[|kinds| - 1], rounds) && |rounds| == |kinds| - 1 - j
    decreases |kinds| - j
  {
    rounds := [];
    if j + 1 < |kinds| {
      var r' := Serve(r, kinds[j]);
      var rest := FairnessIsTight(r', kinds, j + 1);
      var queue := OneOfEach(kinds);
      assert forall i :: 0 <= i < |kinds| ==> queue[i].kind == kinds[i];
      assert HasJob(queue, kinds[|kinds| - 1]) && HasJob(queue, kinds[j]);
      rounds := [Round(queue, kinds[j])] + rest;
      assert rounds[1..] == rest;
    }
  }
}
