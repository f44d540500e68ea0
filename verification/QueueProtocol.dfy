/** The double-buffered queue of datum_queue.c, which datum_logger.c repeats, as a protocol.

    Any number of producer threads run datum_queue_add_item while one consumer thread runs
    datum_queue_process. A step of the transition system is one lock operation or one critical
    section, so every interleaving the locks allow is a run of the system. */
module QueueProtocol {

  // ---------------------------------------------------------------- the shared memory

  /** One half of the double buffer: its version stamp, its fill count and its cells. */
  datatype Half<T> = Half(version: nat, next: nat, cells: seq<T>)

  /** What differs between uses of the queue: how many items a half takes, how many cells it has beyond
      that, how often a producer tries, and whether a half with these items admits one more. */
  datatype Limits<!T> = Limits(maxEntries: nat, spare: nat, maxTries: nat, admits: (seq<T>, T) -> bool)

  /** datum_queue.c has 16 spare cells and no further test. The last of its ten million tries never
      takes the lock. */
  function QueueLimits<T>(maxEntries: nat): Limits<T> {
    Limits(maxEntries, 16, 9999999, (_, _) => true)
  }

  /** The fields of DATUM_QUEUE that both sides use. */
  datatype Shared<!T> = Shared(limits: Limits<T>, active: nat, activeVersion: nat, halves: seq<Half<T>>) {

    /** Both halves have their spare cells, and the fill count never passes the maximum. */
    ghost predicate Ok() {
      && active < 2
      && |halves| == 2
      && forall b :: 0 <= b < 2 ==>
           |halves[b].cells| == limits.maxEntries + limits.spare && halves[b].next <= limits.maxEntries
    }

    ghost function Contents(b: nat): seq<T>
      requires Ok() && b < 2
    {
      halves[b].cells[..halves[b].next]
    }

    ghost predicate Admits(b: nat, x: T)
      requires Ok() && b < 2
    {
      halves[b].next < limits.maxEntries && limits.admits(Contents(b), x)
    }

    /** Store one item behind the last one. */
    ghost function Append(b: nat, x: T): Shared<T>
      requires Ok() && b < 2 && halves[b].next < limits.maxEntries
    {
      var h := halves[b];
      this.(halves := halves[b := h.(cells := h.cells[h.next := x], next := h.next + 1)])
    }

    /** Mark every snapshot of half b stale. */
    ghost function Stamp(b: nat): Shared<T>
      requires Ok() && b < 2
    {
      this.(halves := halves[b := halves[b].(version := halves[b].version + 1)])
    }

    /** Hand the producers the other half, resetting its fill count. */
    ghost function Swap(b: nat): Shared<T>
      requires Ok() && b < 2
    {
      var off := Other(b);
      var h := halves[off].(version := halves[off].version + 1, next := 0);
      this.(halves := halves[off := h], activeVersion := h.version, active := off)
    }

    /** Forget the items of a drained half. */
    ghost function Empty(b: nat): Shared<T>
      requires Ok() && b < 2
    {
      this.(halves := halves[b := halves[b].(next := 0)])
    }
  }

  function Other(b: nat): nat {
    if b == 0 then 1 else 0
  }

  // ---------------------------------------------------------------- the threads

  /** Where a producer is inside datum_queue_add_item. The field seen counts the buffer swaps
      completed when the snapshot was taken; no step looks at it. */
  datatype Producer<T> =
    | Trying(item: T, tries: nat)
    | Snapping(item: T, tries: nat)
    | Waiting(item: T, tries: nat, b: nat, v: nat, seen: nat)
    | Holding(item: T, tries: nat, b: nat, v: nat, seen: nat)

  /** Where the consumer is inside datum_queue_process. */
  datatype Consumer =
    | Resting
    | WantPeek(b: nat)
    | Peeking(b: nat)
    | WantIndex(b: nat)
    | WantActive(b: nat)
    | WantOffline(b: nat)
    | Swapped(b: nat)
    | Releasing(b: nat)
    | Draining(b: nat, i: nat)

  datatype Owner = Free | ByProducer(p: nat) | ByConsumer

  /** The whole system. A producer thread outside of any call is absent from the map.
      The fields added, processed and swaps record history; no step looks at them. */
  datatype Sys<!T> = Sys(
    q: Shared<T>,
    indexReaders: set<nat>,
    indexWriter: bool,
    owner: seq<Owner>,
    producers: map<nat, Producer<T>>,
    consumer: Consumer,
    added: seq<T>,
    processed: seq<T>,
    swaps: nat)

  datatype Step<T> =
    | StartAdd(p: nat, x: T)
    | LockIndex(p: nat)
    | Snapshot(p: nat)
    | LockBuffer(p: nat)
    | Decide(p: nat)
    | GiveUp(p: nat)
    | StartProcess
    | LockPeek
    | Peek
    | LockIndexForSwap
    | LockActiveForSwap
    | LockOfflineAndSwap
    | UnlockOffline
    | UnlockIndex
    | Handle
    | Finish

  ghost predicate Init<T>(s: Sys<T>) {
    && s.q.Ok()
    && s.q.active == 0 && s.q.activeVersion == 0
    && s.q.halves[0].version == 0 && s.q.halves[0].next == 0
    && s.q.halves[1].version == 10 && s.q.halves[1].next == 0
    && s.indexReaders == {} && !s.indexWriter
    && s.owner == [Free, Free]
    && s.producers == map[] && s.consumer == Resting
    && s.added == [] && s.processed == [] && s.swaps == 0
  }

  /** Every index a thread carries is 0 or 1. */
  ghost predicate WellFormed<T>(s: Sys<T>) {
    && s.q.Ok()
    && |s.owner| == 2
    && (forall p :: p in s.producers && (s.producers[p].Waiting? || s.producers[p].Holding?) ==> s.producers[p].b < 2)
    && (s.consumer != Resting ==> s.consumer.b < 2)
  }

  ghost predicate Enabled<T>(s: Sys<T>, step: Step<T>) {
    match step
    case StartAdd(p, _) => p !in s.producers
    case LockIndex(p) =>
      p in s.producers && s.producers[p].Trying? && s.producers[p].tries < s.q.limits.maxTries && !s.indexWriter
    case Snapshot(p) => p in s.producers && s.producers[p].Snapping?
    case LockBuffer(p) => WellFormed(s) && p in s.producers && s.producers[p].Waiting? && s.owner[s.producers[p].b] == Free
    case Decide(p) => p in s.producers && s.producers[p].Holding?
    case GiveUp(p) => p in s.producers && s.producers[p].Trying? && s.producers[p].tries >= s.q.limits.maxTries
    case StartProcess => s.consumer == Resting
    case LockPeek => WellFormed(s) && s.consumer.WantPeek? && s.owner[s.consumer.b] == Free
    case Peek => s.consumer.Peeking?
    case LockIndexForSwap => s.consumer.WantIndex? && !s.indexWriter && s.indexReaders == {}
    case LockActiveForSwap => WellFormed(s) && s.consumer.WantActive? && s.owner[s.consumer.b] == Free
    case LockOfflineAndSwap => WellFormed(s) && s.consumer.WantOffline? && s.owner[Other(s.consumer.b)] == Free
    case UnlockOffline => s.consumer.Swapped?
    case UnlockIndex => s.consumer.Releasing?
    case Handle => WellFormed(s) && s.consumer.Draining? && s.consumer.i < s.q.halves[s.consumer.b].next
    case Finish => WellFormed(s) && s.consumer.Draining? && s.consumer.i >= s.q.halves[s.consumer.b].next
  }

  /** A producer in its critical section leaves it, without its item or with it stored. */
  ghost function Left<T>(s: Sys<T>, p: nat): Sys<T>
    requires WellFormed(s) && Enabled(s, Decide(p))
  {
    s.(owner := s.owner[s.producers[p].b := Free], producers := s.producers - {p})
  }

  ghost function Stored<T>(s: Sys<T>, p: nat): Sys<T>
    requires WellFormed(s) && Enabled(s, Decide(p)) && s.q.halves[s.producers[p].b].next < s.q.limits.maxEntries
  {
    var pc := s.producers[p];
    Left(s, p).(q := s.q.Append(pc.b, pc.item), added := s.added + [pc.item])
  }

  /** The producer holding buffer b decides: retry, refuse or append; the lock is released in each case. */
  ghost function Decided<T>(s: Sys<T>, p: nat): Sys<T>
    requires WellFormed(s) && Enabled(s, Decide(p))
  {
    var pc := s.producers[p];
    if pc.v != s.q.halves[pc.b].version then
      s.(owner := s.owner[pc.b := Free], producers := s.producers[p := Trying(pc.item, pc.tries + 1)])
    else if s.q.Admits(pc.b, pc.item) then Stored(s, p)
    else Left(s, p)
  }

  ghost function Apply<T>(s: Sys<T>, step: Step<T>): Sys<T>
    requires WellFormed(s) && Enabled(s, step)
  {
    match step
    case StartAdd(p, x) => s.(producers := s.producers[p := Trying(x, 0)])
    case LockIndex(p) =>
      s.(indexReaders := s.indexReaders + {p},
      producers := s.producers[p := Snapping(s.producers[p].item, s.producers[p].tries)])
    case Snapshot(p) =>
      var pc := s.producers[p];
      s.(indexReaders := s.indexReaders - {p},
      producers := s.producers[p := Waiting(pc.item, pc.tries, s.q.active, s.q.activeVersion, s.swaps)])
    case LockBuffer(p) =>
      var pc := s.producers[p];
      s.(owner := s.owner[pc.b := ByProducer(p)],
      producers := s.producers[p := Holding(pc.item, pc.tries, pc.b, pc.v, pc.seen)])
    case Decide(p) => Decided(s, p)
    case GiveUp(p) => s.(producers := s.producers - {p})
    case StartProcess => s.(consumer := WantPeek(s.q.active))
    case LockPeek => s.(consumer := Peeking(s.consumer.b), owner := s.owner[s.consumer.b := ByConsumer])
    case Peek =>
      var b := s.consumer.b;
      s.(consumer := if s.q.halves[b].next == 0 then Resting else WantIndex(b), owner := s.owner[b := Free])
    case LockIndexForSwap => s.(consumer := WantActive(s.consumer.b), indexWriter := true)
    case LockActiveForSwap =>
      var b := s.consumer.b;
      s.(consumer := WantOffline(b), owner := s.owner[b := ByConsumer], q := s.q.Stamp(b))
    case LockOfflineAndSwap =>
      var b := s.consumer.b;
      s.(consumer := Swapped(b), owner := s.owner[Other(b) := ByConsumer], q := s.q.Swap(b), swaps := s.swaps + 1)
    case UnlockOffline =>
      var b := s.consumer.b;
      s.(consumer := Releasing(b), owner := s.owner[Other(b) := Free])
    case UnlockIndex => s.(consumer := Draining(s.consumer.b, 0), indexWriter := false)
    case Handle =>
      var b, i := s.consumer.b, s.consumer.i;
      s.(consumer := Draining(b, i + 1), processed := s.processed + [s.q.halves[b].cells[i]])
    case Finish =>
      var b := s.consumer.b;
      s.(consumer := Resting, owner := s.owner[b := Free], q := s.q.Empty(b))
  }

  // ---------------------------------------------------------------- the invariant

  ghost predicate ConsumerHolds(c: Consumer, b: nat) {
    || (c.Peeking? && c.b == b)
    || (c.WantOffline? && c.b == b)
    || (c.Swapped? && b < 2)
    || (c.Releasing? && c.b == b)
    || (c.Draining? && c.b == b)
  }

  ghost predicate ConsumerHoldsIndex(c: Consumer) {
    c.WantActive? || c.WantOffline? || c.Swapped? || c.Releasing?
  }

  /** The consumer has handed half c.b over to itself and not emptied it yet. */
  ghost predicate Offline(c: Consumer) {
    c.Swapped? || c.Releasing? || c.Draining?
  }

  /** Each lock word says exactly which thread is inside the matching critical section. */
  ghost predicate LocksMatch<T>(s: Sys<T>)
    requires WellFormed(s)
  {
    && (forall p :: p in s.indexReaders <==> p in s.producers && s.producers[p].Snapping?)
    && (s.indexWriter <==> ConsumerHoldsIndex(s.consumer))
    && (s.indexWriter ==> s.indexReaders == {})
    && (forall b :: 0 <= b < 2 ==> (s.owner[b] == ByConsumer <==> ConsumerHolds(s.consumer, b)))
    && (forall b :: 0 <= b < 2 && s.owner[b].ByProducer? ==>
          s.owner[b].p in s.producers && s.producers[s.owner[b].p].Holding? && s.producers[s.owner[b].p].b == b)
    && (forall p :: p in s.producers && s.producers[p].Holding? ==> s.owner[s.producers[p].b] == ByProducer(p))
  }

  /** The active half's stamp is the published one, except between the two stamps of a swap. */
  ghost predicate VersionsMatch<T>(s: Sys<T>)
    requires WellFormed(s)
  {
    && (s.consumer != Resting ==> s.q.active == if Offline(s.consumer) then Other(s.consumer.b) else s.consumer.b)
    && s.q.halves[s.q.active].version == s.q.activeVersion + if s.consumer.WantOffline? then 1 else 0
  }

  /** A snapshot taken since the last swap is the published pair; an older one is behind its half's stamp. */
  ghost predicate SnapshotOk<T>(s: Sys<T>, b: nat, v: nat, seen: nat)
    requires WellFormed(s) && b < 2
  {
    && seen <= s.swaps
    && (seen == s.swaps ==> b == s.q.active && v == s.q.activeVersion)
    && (seen < s.swaps ==> v < s.q.halves[b].version)
  }

  /** Snapshots are right, and a producer has not retried more often than buffers were swapped. */
  ghost predicate SnapshotsOk<T>(s: Sys<T>)
    requires WellFormed(s)
  {
    forall p :: p in s.producers ==>
      match s.producers[p]
      case Trying(_, tries) => tries <= s.swaps
      case Snapping(_, tries) => tries <= s.swaps
      case Waiting(_, tries, b, v, seen) => SnapshotOk(s, b, v, seen) && tries <= seen
      case Holding(_, tries, b, v, seen) => SnapshotOk(s, b, v, seen) && tries <= seen
  }

  /** What the consumer still has to handle of the half it took offline. */
  ghost function Remainder<T>(s: Sys<T>): seq<T>
    requires WellFormed(s) && (s.consumer.Draining? ==> s.consumer.i <= s.q.halves[s.consumer.b].next)
  {
    match s.consumer
    case Draining(b, i) => s.q.Contents(b)[i..]
    case Swapped(b) => s.q.Contents(b)
    case Releasing(b) => s.q.Contents(b)
    case _ => []
  }

  /** Abstraction: the items in the queue, oldest first. */
  ghost function Pending<T>(s: Sys<T>): seq<T>
    requires WellFormed(s) && (s.consumer.Draining? ==> s.consumer.i <= s.q.halves[s.consumer.b].next)
  {
    Remainder(s) + s.q.Contents(s.q.active)
  }

  ghost predicate ContentsMatch<T>(s: Sys<T>)
    requires WellFormed(s)
  {
    && (s.consumer.Draining? ==> s.consumer.i <= s.q.halves[s.consumer.b].next)
    && (!Offline(s.consumer) ==> s.q.halves[Other(s.q.active)].next == 0)
    && s.added == s.processed + Pending(s)
  }

  ghost predicate Inv<T>(s: Sys<T>) {
    WellFormed(s) && LocksMatch(s) && VersionsMatch(s) && SnapshotsOk(s) && ContentsMatch(s)
  }

  lemma InitInv<T>(s: Sys<T>)
    requires Init(s)
    ensures Inv(s)
  {
  }

  // ---------------------------------------------------------------- refinement

  /** What a step means to the specification, an unbounded first-in first-out queue. */
  datatype Effect<T> = Stutter | Enqueue(x: T) | Dequeue

  ghost function EffectOf<T>(s: Sys<T>, step: Step<T>): Effect<T>
    requires WellFormed(s) && Enabled(s, step)
  {
    match step
    case Decide(p) =>
      var pc := s.producers[p];
      if pc.v == s.q.halves[pc.b].version && s.q.Admits(pc.b, pc.item) then Enqueue(pc.item) else Stutter
    case Handle => Dequeue
    case _ => Stutter
  }

  /** The queue before and after a step, and the two histories, change as the specification says. */
  ghost predicate FifoStep<T>(before: Sys<T>, effect: Effect<T>, after: Sys<T>)
    requires WellFormed(before) && ContentsMatch(before) && WellFormed(after) && ContentsMatch(after)
  {
    match effect
    case Stutter =>
      && Pending(after) == Pending(before)
      && after.added == before.added && after.processed == before.processed
    case Enqueue(x) =>
      && Pending(after) == Pending(before) + [x]
      && after.added == before.added + [x] && after.processed == before.processed
    case Dequeue =>
      && Pending(before) != [] && Pending(after) == Pending(before)[1..]
      && after.added == before.added && after.processed == before.processed + [Pending(before)[0]]
  }

  lemma AdmissionStep<T>(s: Sys<T>, step: Step<T>)
    requires Inv(s) && Enabled(s, step) && (step.StartAdd? || step.GiveUp?)
    ensures Inv(Apply(s, step)) && FifoStep(s, EffectOf(s, step), Apply(s, step))
  {
  }

  lemma SnapshotStep<T>(s: Sys<T>, step: Step<T>)
    requires Inv(s) && Enabled(s, step) && (step.LockIndex? || step.Snapshot?)
    ensures Inv(Apply(s, step)) && FifoStep(s, EffectOf(s, step), Apply(s, step))
  {
  }

  lemma LockBufferKeepsLocks<T>(s: Sys<T>, step: Step<T>)
    requires WellFormed(s) && LocksMatch(s) && Enabled(s, step) && step.LockBuffer?
    ensures WellFormed(Apply(s, step)) && LocksMatch(Apply(s, step))
  {
  }

  lemma LockBufferKeepsSnapshots<T>(s: Sys<T>, step: Step<T>)
    requires WellFormed(s) && VersionsMatch(s) && SnapshotsOk(s) && Enabled(s, step) && step.LockBuffer?
    ensures WellFormed(Apply(s, step)) && VersionsMatch(Apply(s, step)) && SnapshotsOk(Apply(s, step))
  {
  }

  lemma LockBufferStep<T>(s: Sys<T>, step: Step<T>)
    requires Inv(s) && Enabled(s, step) && step.LockBuffer?
    ensures Inv(Apply(s, step)) && FifoStep(s, EffectOf(s, step), Apply(s, step))
  {
    LockBufferKeepsLocks(s, step);
    LockBufferKeepsSnapshots(s, step);
    assert Pending(Apply(s, step)) == Pending(s);
  }

  /** Everything but the thread p, the buffer it held and that buffer's items stays the same. */
  ghost predicate OnlyReleased<T>(s: Sys<T>, t: Sys<T>, p: nat) {
    && WellFormed(s) && p in s.producers && s.producers[p].Holding?
    && t.q.Ok() && t.q.active == s.q.active && t.q.activeVersion == s.q.activeVersion
    && (forall b :: 0 <= b < 2 ==> t.q.halves[b].version == s.q.halves[b].version)
    && (forall b :: 0 <= b < 2 && b != s.producers[p].b ==> t.q.halves[b] == s.q.halves[b])
    && t.indexReaders == s.indexReaders && t.indexWriter == s.indexWriter && t.consumer == s.consumer
    && t.swaps == s.swaps
    && t.owner == s.owner[s.producers[p].b := Free]
    && t.producers.Keys <= s.producers.Keys && s.producers.Keys - {p} <= t.producers.Keys
    && (forall r :: r in t.producers && r != p ==> t.producers[r] == s.producers[r])
    && (p in t.producers ==>
          && t.producers[p].Trying? && t.producers[p].tries == s.producers[p].tries + 1
          && s.producers[p].v != s.q.halves[s.producers[p].b].version)
  }

  lemma DecideOnlyReleases<T>(s: Sys<T>, p: nat)
    requires WellFormed(s) && Enabled(s, Decide(p))
    ensures OnlyReleased(s, Decided(s, p), p)
  {
  }

  lemma ReleaseKeepsLocks<T>(s: Sys<T>, t: Sys<T>, p: nat)
    requires WellFormed(s) && LocksMatch(s) && OnlyReleased(s, t, p)
    ensures WellFormed(t) && LocksMatch(t)
  {
    forall r | r in t.producers && t.producers[r].Holding? ensures t.owner[t.producers[r].b] == ByProducer(r) {
      assert s.owner[s.producers[r].b] == ByProducer(r);
    }
  }

  lemma ReleaseKeepsThreads<T>(s: Sys<T>, t: Sys<T>, p: nat)
    requires WellFormed(s) && LocksMatch(s) && VersionsMatch(s) && SnapshotsOk(s)
    requires OnlyReleased(s, t, p)
    ensures WellFormed(t) && LocksMatch(t) && VersionsMatch(t) && SnapshotsOk(t)
  {
    ReleaseKeepsLocks(s, t, p);
  }

  lemma HandleKeepsThreads<T>(s: Sys<T>, step: Step<T>)
    requires Inv(s) && Enabled(s, step) && step.Handle?
    ensures WellFormed(Apply(s, step)) && LocksMatch(Apply(s, step))
    ensures VersionsMatch(Apply(s, step)) && SnapshotsOk(Apply(s, step))
  {
  }

  lemma StoredContents<T>(s: Sys<T>, p: nat)
    requires Inv(s) && Enabled(s, Decide(p)) && EffectOf(s, Decide(p)).Enqueue?
    requires WellFormed(Decided(s, p))
    ensures var t := Decided(s, p); ContentsMatch(t) && FifoStep(s, EffectOf(s, Decide(p)), t)
  {
    var pc, t := s.producers[p], Decided(s, p);
    assert pc.b == s.q.active;
    assert t.q.Contents(pc.b) == s.q.Contents(pc.b) + [pc.item];
    assert Remainder(t) == Remainder(s);
    assert Pending(t) == Pending(s) + [pc.item];
    assert t.added == t.processed + Pending(t);
  }

  lemma DecideStep<T>(s: Sys<T>, step: Step<T>)
    requires Inv(s) && Enabled(s, step) && step.Decide?
    ensures Inv(Apply(s, step)) && FifoStep(s, EffectOf(s, step), Apply(s, step))
  {
    var p, t := step.p, Apply(s, step);
    DecideOnlyReleases(s, p);
    ReleaseKeepsThreads(s, t, p);
    if EffectOf(s, step).Enqueue? {
      StoredContents(s, p);
    } else {
      assert Pending(t) == Pending(s);
    }
  }

  lemma PeekStep<T>(s: Sys<T>, step: Step<T>)
    requires Inv(s) && Enabled(s, step) && (step.StartProcess? || step.LockPeek? || step.Peek?)
    ensures Inv(Apply(s, step)) && FifoStep(s, EffectOf(s, step), Apply(s, step))
  {
  }

  lemma IndexStep<T>(s: Sys<T>, step: Step<T>)
    requires Inv(s) && Enabled(s, step) && (step.LockIndexForSwap? || step.LockActiveForSwap?)
    ensures Inv(Apply(s, step)) && FifoStep(s, EffectOf(s, step), Apply(s, step))
  {
  }

  lemma SwapStep<T>(s: Sys<T>, step: Step<T>)
    requires Inv(s) && Enabled(s, step) && (step.LockOfflineAndSwap?)
    ensures Inv(Apply(s, step)) && FifoStep(s, EffectOf(s, step), Apply(s, step))
  {
  }

  lemma ReleaseStep<T>(s: Sys<T>, step: Step<T>)
    requires Inv(s) && Enabled(s, step) && (step.UnlockOffline? || step.UnlockIndex?)
    ensures Inv(Apply(s, step)) && FifoStep(s, EffectOf(s, step), Apply(s, step))
  {
  }

  lemma HandleStep<T>(s: Sys<T>, step: Step<T>)
    requires Inv(s) && Enabled(s, step) && (step.Handle?)
    ensures Inv(Apply(s, step)) && FifoStep(s, EffectOf(s, step), Apply(s, step))
  {
    var b, i, t := s.consumer.b, s.consumer.i, Apply(s, step);
    HandleKeepsThreads(s, step);
    assert Remainder(s) == [s.q.halves[b].cells[i]] + Remainder(t);
    assert Pending(s) == [s.q.halves[b].cells[i]] + Pending(t);
    assert t.added == t.processed + Pending(t);
  }

  lemma FinishStep<T>(s: Sys<T>, step: Step<T>)
    requires Inv(s) && Enabled(s, step) && (step.Finish?)
    ensures Inv(Apply(s, step)) && FifoStep(s, EffectOf(s, step), Apply(s, step))
  {
  }

  lemma StepRefinesFifo<T>(s: Sys<T>, step: Step<T>)
    requires Inv(s) && Enabled(s, step)
    ensures Inv(Apply(s, step)) && FifoStep(s, EffectOf(s, step), Apply(s, step))
  {
    match step
    case StartAdd(_, _) => AdmissionStep(s, step);
    case GiveUp(_) => AdmissionStep(s, step);
    case LockIndex(_) => SnapshotStep(s, step);
    case Snapshot(_) => SnapshotStep(s, step);
    case LockBuffer(_) => LockBufferStep(s, step);
    case Decide(_) => DecideStep(s, step);
    case StartProcess => PeekStep(s, step);
    case LockPeek => PeekStep(s, step);
    case Peek => PeekStep(s, step);
    case LockIndexForSwap => IndexStep(s, step);
    case LockActiveForSwap => IndexStep(s, step);
    case LockOfflineAndSwap => SwapStep(s, step);
    case UnlockOffline => ReleaseStep(s, step);
    case UnlockIndex => ReleaseStep(s, step);
    case Handle => HandleStep(s, step);
    case Finish => FinishStep(s, step);
  }

  // ---------------------------------------------------------------- theorems over whole runs

  /** Any interleaving of enabled steps. */
  ghost predicate IsRun<T>(states: seq<Sys<T>>, steps: seq<Step<T>>) {
    && |states| == |steps| + 1
    && Init(states[0])
    && forall i :: 0 <= i < |steps| ==>
         Enabled(states[i], steps[i]) && (WellFormed(states[i]) ==> states[i + 1] == Apply(states[i], steps[i]))
  }

  lemma {:induction false} RunInv<T>(states: seq<Sys<T>>, steps: seq<Step<T>>, n: nat)
    requires IsRun(states, steps) && n < |states|
    ensures Inv(states[n])
  {
    if n == 0 {
      InitInv(states[0]);
    } else {
      RunInv(states, steps, n - 1);
      StepRefinesFifo(states[n - 1], steps[n - 1]);
    }
  }

  /** The items of the successful additions among the first n steps, in the order of their critical sections. */
  ghost function Additions<T>(states: seq<Sys<T>>, steps: seq<Step<T>>, n: nat): seq<T>
    requires IsRun(states, steps) && n <= |steps|
    requires forall i :: 0 <= i < n ==> Inv(states[i])
  {
    if n == 0 then [] else
      assert Inv(states[n - 1]);
      var effect := EffectOf(states[n - 1], steps[n - 1]);
      Additions(states, steps, n - 1) + if effect.Enqueue? then [effect.x] else []
  }

  /** The items given to the handler are, in order and each once, the oldest successful additions;
      the others are exactly the ones still in the two halves. */
  lemma {:induction false} QueueIsFifo<T>(states: seq<Sys<T>>, steps: seq<Step<T>>, n: nat)
    requires IsRun(states, steps) && n < |states|
    ensures Inv(states[n]) && forall i :: 0 <= i < n ==> Inv(states[i])
    ensures Additions(states, steps, n) == states[n].processed + Pending(states[n])
  {
    forall i | 0 <= i <= n ensures Inv(states[i]) {
      RunInv(states, steps, i);
    }
    if n > 0 {
      QueueIsFifo(states, steps, n - 1);
      StepRefinesFifo(states[n - 1], steps[n - 1]);
      FifoHistory(states[n - 1], EffectOf(states[n - 1], steps[n - 1]), states[n]);
    }
  }

  /** A step of the specification adds to what was handled and what is pending, together, what it enqueues. */
  lemma FifoHistory<T>(before: Sys<T>, effect: Effect<T>, after: Sys<T>)
    requires WellFormed(before) && ContentsMatch(before) && WellFormed(after) && ContentsMatch(after)
    requires FifoStep(before, effect, after)
    ensures after.processed + Pending(after)
         == before.processed + Pending(before) + if effect.Enqueue? then [effect.x] else []
  {
    match effect
    case Stutter =>
    case Enqueue(x) =>
      assert before.processed + (Pending(before) + [x]) == before.processed + Pending(before) + [x];
    case Dequeue =>
      assert Pending(before) == [Pending(before)[0]] + Pending(after);
  }

  /** Nothing is left behind: at rest with an empty active half, all that was ever added was handled. */
  lemma DrainedMeansAllHandled<T>(states: seq<Sys<T>>, steps: seq<Step<T>>, n: nat)
    requires IsRun(states, steps) && n < |states|
    requires states[n].consumer == Resting
    ensures Inv(states[n])
    ensures states[n].q.halves[states[n].q.active].next == 0 ==> states[n].processed == states[n].added
  {
    RunInv(states, steps, n);
  }

  /** How many items of the half it took offline the consumer still has to handle. */
  ghost function Unhandled<T>(s: Sys<T>): int
    requires WellFormed(s)
  {
    match s.consumer
    case Draining(b, i) => s.q.halves[b].next - i
    case Swapped(b) => s.q.halves[b].next
    case Releasing(b) => s.q.halves[b].next
    case _ => 0
  }

  ghost predicate BeforeSwap(c: Consumer) {
    c.WantIndex? || c.WantActive? || c.WantOffline?
  }

  /** The goal was added; the half taken offline brings the consumer there, unless it is still to be swapped. */
  ghost predicate WillHandle<T>(s: Sys<T>, goal: seq<T>)
    requires WellFormed(s)
  {
    goal <= s.added && (BeforeSwap(s.consumer) || |s.processed| + Unhandled(s) >= |goal|)
  }

  lemma AllAccountedFor<T>(s: Sys<T>)
    requires Inv(s)
    ensures |s.added| == |s.processed| + Unhandled(s) + s.q.halves[s.q.active].next && Unhandled(s) >= 0
  {
  }

  lemma SwapHandles<T>(s: Sys<T>, goal: seq<T>)
    requires Inv(s) && Enabled(s, LockOfflineAndSwap) && goal <= s.added
    ensures WellFormed(Apply(s, LockOfflineAndSwap)) && WillHandle(Apply(s, LockOfflineAndSwap), goal)
  {
    AllAccountedFor(s);
  }

  lemma ProducerHandles<T>(s: Sys<T>, step: Step<T>, goal: seq<T>)
    requires Inv(s) && Enabled(s, step) && WillHandle(s, goal)
    requires step.StartAdd? || step.LockIndex? || step.Snapshot? || step.LockBuffer? || step.Decide? || step.GiveUp?
    requires WellFormed(Apply(s, step))
    ensures WillHandle(Apply(s, step), goal)
  {
    if step.Decide? {
      StampDetectsSwap(s, step.p);
    }
  }

  lemma ConsumerHandles<T>(s: Sys<T>, step: Step<T>, goal: seq<T>)
    requires Inv(s) && Enabled(s, step) && WillHandle(s, goal) && WellFormed(Apply(s, step))
    requires !(step.StartAdd? || step.LockIndex? || step.Snapshot? || step.LockBuffer? || step.Decide? || step.GiveUp?)
    ensures WillHandle(Apply(s, step), goal)
  {
    AllAccountedFor(s);
    if step.LockOfflineAndSwap? {
      SwapHandles(s, goal);
    }
  }

  lemma {:induction false} HandlesInRun<T>(states: seq<Sys<T>>, steps: seq<Step<T>>, n: nat, m: nat, goal: seq<T>)
    requires IsRun(states, steps) && n <= m < |states|
    requires Inv(states[n]) && WillHandle(states[n], goal)
    ensures Inv(states[m]) && WillHandle(states[m], goal)
    decreases m
  {
    if n < m {
      HandlesInRun(states, steps, n, m - 1, goal);
      var s, step := states[m - 1], steps[m - 1];
      StepRefinesFifo(s, step);
      if step.StartAdd? || step.LockIndex? || step.Snapshot? || step.LockBuffer? || step.Decide? || step.GiveUp? {
        ProducerHandles(s, step, goal);
      } else {
        ConsumerHandles(s, step, goal);
      }
    }
  }

  /** A call of the consumer that has returned handled everything that was added before it looked at the active
      half, whatever the producers did meanwhile. */
  lemma {:induction false} ProcessHandlesAll<T>(states: seq<Sys<T>>, steps: seq<Step<T>>, n: nat, m: nat)
    requires IsRun(states, steps) && n < m < |states| && steps[n] == Peek && states[m].consumer == Resting
    ensures states[n].added <= states[m].processed
  {
    RunInv(states, steps, n);
    RunInv(states, steps, n + 1);
    AllAccountedFor(states[n]);
    HandlesInRun(states, steps, n + 1, m, states[n].added);
    assert states[m].added == states[m].processed + Pending(states[m]);
  }

  /** The stamp test in the critical section: a stale stamp means a swap completed since the
      snapshot, a matching one means none did and the half is the active one. */
  lemma StampDetectsSwap<T>(s: Sys<T>, p: nat)
    requires Inv(s) && p in s.producers && s.producers[p].Holding?
    ensures var pc := s.producers[p];
            && (pc.v != s.q.halves[pc.b].version <==> pc.seen < s.swaps)
            && (pc.v == s.q.halves[pc.b].version ==> pc.b == s.q.active && !ConsumerHolds(s.consumer, pc.b))
  {
    assert s.owner[s.producers[p].b] == ByProducer(p);
  }

  /** What comes of an attempt in the critical section: it fails exactly if a swap completed since the snapshot;
      otherwise the item is added exactly if the half has an entry left (and admits it), else refused. */
  lemma AttemptOutcome<T>(s: Sys<T>, p: nat)
    requires Inv(s) && p in s.producers && s.producers[p].Holding?
    ensures var pc, t, h := s.producers[p], Apply(s, Decide(p)), s.q.halves[s.q.active];
            if pc.seen < s.swaps then t.added == s.added && t.q == s.q && p in t.producers
                                      && t.producers[p] == Trying(pc.item, pc.tries + 1)
            else if h.next < s.q.limits.maxEntries && s.q.limits.admits(h.cells[..h.next], pc.item) then
              t.added == s.added + [pc.item] && p !in t.producers
            else t.added == s.added && t.q == s.q && p !in t.producers
  {
    StampDetectsSwap(s, p);
  }

  /** In datum_queue.c nothing but the number of entries limits a half, and a producer that gives up has met
      9999999 swaps. */
  lemma DatumQueueAdmits<T>(s: Sys<T>, p: nat, maxEntries: nat)
    requires Inv(s) && s.q.limits == QueueLimits(maxEntries)
    ensures p in s.producers && s.producers[p].Holding? && s.producers[p].seen == s.swaps ==>
              (Apply(s, Decide(p)).added == s.added + [s.producers[p].item] <==> s.q.halves[s.q.active].next < maxEntries)
    ensures forall b :: 0 <= b < 2 ==> |s.q.halves[b].cells| == maxEntries + 16
    ensures Enabled(s, GiveUp(p)) <==> p in s.producers && s.producers[p].Trying? && s.producers[p].tries >= 9_999_999
    ensures Enabled(s, GiveUp(p)) ==> s.swaps >= 9_999_999
  {
    if p in s.producers && s.producers[p].Holding? {
      AttemptOutcome(s, p);
    }
    if Enabled(s, GiveUp(p)) {
      GiveUpNeedsManySwaps(s, p);
    }
  }

  /** Giving up takes a swap for every one of the attempts. */
  lemma GiveUpNeedsManySwaps<T>(s: Sys<T>, p: nat)
    requires Inv(s) && Enabled(s, GiveUp(p))
    ensures s.swaps >= s.q.limits.maxTries
  {
    assert s.producers[p].tries <= s.swaps;
  }

  /** Resetting the offline half's fill count discards nothing: it was already zero. */
  lemma ResetDiscardsNothing<T>(s: Sys<T>)
    requires Inv(s) && Enabled(s, LockOfflineAndSwap)
    ensures s.q.halves[Other(s.consumer.b)].next == 0
    ensures s.q.Swap(s.consumer.b).Contents(s.consumer.b) == s.q.Contents(s.q.active)
  {
  }

  /** No deadlock: while any thread is inside an operation, a thread inside an operation can move. */
  lemma NoDeadlock<T>(s: Sys<T>) returns (step: Step<T>)
    requires Inv(s)
    requires s.producers != map[] || s.consumer != Resting
    ensures Enabled(s, step) && !step.StartAdd? && !step.StartProcess?
  {
    var c := s.consumer;
    if p :| p in s.producers && s.producers[p].Snapping? {
      step := Snapshot(p);
    } else if p :| p in s.producers && s.producers[p].Holding? {
      step := Decide(p);
    } else {
      step := NoDeadlockNoProducerInside(s);
    }
  }

  /** With no producer inside a critical section, every lock the consumer does not hold is free. */
  lemma NoDeadlockNoProducerInside<T>(s: Sys<T>) returns (step: Step<T>)
    requires Inv(s)
    requires s.producers != map[] || s.consumer != Resting
    requires forall p :: p in s.producers ==> !s.producers[p].Snapping? && !s.producers[p].Holding?
    ensures Enabled(s, step) && !step.StartAdd? && !step.StartProcess?
  {
    assert s.indexReaders == {};
    assert forall b :: 0 <= b < 2 ==> !s.owner[b].ByProducer?;
    match s.consumer
    case Resting =>
      var p :| p in s.producers;
      step := if s.producers[p].Waiting? then LockBuffer(p)
              else if s.producers[p].tries < s.q.limits.maxTries then LockIndex(p) else GiveUp(p);
    case WantPeek(_) => step := LockPeek;
    case Peeking(_) => step := Peek;
    case WantIndex(_) => step := LockIndexForSwap;
    case WantActive(_) => step := LockActiveForSwap;
    case WantOffline(_) => step := LockOfflineAndSwap;
    case Swapped(_) => step := UnlockOffline;
    case Releasing(_) => step := UnlockIndex;
    case Draining(b, i) => step := if i < s.q.halves[b].next then Handle else Finish;
  }
}
