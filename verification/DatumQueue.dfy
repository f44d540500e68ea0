/** The code of datum_queue.c between lock operations, on the one memory block it allocates.
    QueueProtocol says what these pieces guarantee when producers and the consumer interleave. */
module DatumQueues {
  import opened QueueProtocol

  datatype AddResult = Stale | Overflow | Stored

  class DatumQueue<T(0)> {
    const maxEntries: nat
    const block: array<T>            // both halves, each with 16 spare cells
    const queueNext: array<nat>
    const queueVersion: array<nat>
    var activeBuffer: nat
    var activeBufferVersion: nat
    var handled: seq<T>              // the calls made to the item handler

    function Base(b: nat): nat {
      if b == 0 then 0 else maxEntries + 16
    }

    ghost predicate Valid()
      reads this, block, queueNext, queueVersion
    {
      && block.Length == (maxEntries + 16) * 2
      && queueNext.Length == 2 && queueVersion.Length == 2
      && queueNext != queueVersion
      && block as object != queueNext as object && block as object != queueVersion as object
      && activeBuffer < 2
      && queueNext[0] <= maxEntries && queueNext[1] <= maxEntries
    }

    ghost function HalfView(b: nat): Half<T>
      requires Valid() && b < 2
      reads this, block, queueNext, queueVersion
    {
      Half(queueVersion[b], queueNext[b], block[Base(b)..Base(b) + maxEntries + 16])
    }

    ghost function View(): (s: Shared<T>)
      requires Valid()
      reads this, block, queueNext, queueVersion
      ensures s.Ok()
    {
      Shared(QueueLimits(maxEntries), activeBuffer, activeBufferVersion, [HalfView(0), HalfView(1)])
    }

    constructor Prep(maxItems: nat)
      ensures Valid() && fresh(block) && fresh(queueNext) && fresh(queueVersion)
      ensures maxEntries == maxItems && handled == []
      ensures View().active == 0 && View().activeVersion == 0
      ensures View().halves[0].version == 0 && View().halves[1].version == 10
      ensures View().Contents(0) == [] && View().Contents(1) == []
    {
      maxEntries := maxItems;
      block := new T[(maxItems + 16) * 2];
      queueNext := new nat[2](_ => 0);
      queueVersion := new nat[2](_ => 0);
      activeBuffer, activeBufferVersion, handled := 0, 0, [];
      new;
      queueVersion[1] := 10;
    }

    /** Lines 146 to 172, with the write lock of half b held: the stamp test, the overflow test, the store. */
    method AddUnderLock(b: nat, version: nat, item: T) returns (r: AddResult)
      requires Valid() && b < 2
      modifies block, queueNext
      ensures Valid() && handled == old(handled)
      ensures r == Stale <==> version != old(queueVersion[b])
      ensures r == Overflow <==> version == old(queueVersion[b]) && old(queueNext[b]) >= maxEntries
      ensures View() == if r == Stored then old(View()).Append(b, item) else old(View())
    {
      if version != queueVersion[b] {
        return Stale;
      }
      if queueNext[b] >= maxEntries {
        return Overflow;
      }
      var out := Base(b) + queueNext[b];
      block[out] := item;
      queueNext[b] := queueNext[b] + 1;
      assert HalfView(b).cells == old(HalfView(b)).cells[old(queueNext[b]) := item];
      assert HalfView(Other(b)) == old(HalfView(Other(b)));
      return Stored;
    }

    /** Lines 214 to 231, with every write lock held. */
    method SwapUnderLocks(b: nat)
      requires Valid() && b < 2
      modifies this`activeBuffer, this`activeBufferVersion, queueNext, queueVersion
      ensures Valid() && handled == old(handled)
      ensures View() == old(View()).Stamp(b).Swap(b)
    {
      queueVersion[b] := queueVersion[b] + 1;
      var offline := if b != 0 then 0 else 1;
      queueVersion[offline] := queueVersion[offline] + 1;
      activeBufferVersion := queueVersion[offline];
      activeBuffer := offline;
      queueNext[offline] := 0;
    }

    /** Lines 239 to 251, with the write lock of half b held. */
    method DrainUnderLock(b: nat) returns (count: nat)
      requires Valid() && b < 2
      modifies this`handled, queueNext
      ensures Valid() && count == old(queueNext[b])
      ensures handled == old(handled) + old(View()).Contents(b)
      ensures View() == old(View()).Empty(b)
    {
      count := 0;
      while count < queueNext[b]
        invariant count <= queueNext[b] && Valid()
        invariant queueNext[0] == old(queueNext[0]) && queueNext[1] == old(queueNext[1])
        invariant View() == old(View())
        invariant handled == old(handled) + old(View()).Contents(b)[..count]
      {
        handled := handled + [block[Base(b) + count]];
        count := count + 1;
      }
      queueNext[b] := 0;
    }

    /** datum_queue_process while no producer is inside a critical section. */
    method Process() returns (count: nat)
      requires Valid()
      modifies this, queueNext, queueVersion
      ensures Valid()
      ensures handled == old(handled) + old(View().Contents(View().active))
      ensures View().Contents(old(activeBuffer)) == []
      ensures count > 0 ==> activeBuffer == Other(old(activeBuffer)) && activeBufferVersion == queueVersion[activeBuffer]
      ensures count == 0 ==> View() == old(View())
    {
      var b := activeBuffer;
      if queueNext[b] == 0 {
        return 0;
      }
      SwapUnderLocks(b);
      assert View().halves[activeBuffer].version == queueVersion[activeBuffer];
      count := DrainUnderLock(b);
    }
  }
}
