/** The code of datum_logger.c between lock operations, on its two allocations. LoggerArena says what
    these pieces guarantee when logging threads and the writer interleave. */
module DatumLogger {
  import opened Bytes
  import opened LoggerArena

  datatype LogResult = Full | Overrun | Logged

  class LogMemory {
    const maxEntries: nat
    const msgBuffer: array<byte>   // both halves of the text arena
    const dlogQueue: array<nat>    // the msg pointers of both halves' entries
    const msgBufIdx: array<nat>
    const queueNext: array<nat>

    ghost predicate Valid()
      reads this, msgBufIdx, queueNext
    {
      && msgBuffer.Length == 2 * HALF_BYTES && dlogQueue.Length == 2 * maxEntries
      && msgBufIdx.Length == 2 && queueNext.Length == 2
      && msgBufIdx != queueNext && dlogQueue != msgBufIdx && dlogQueue != queueNext
      && msgBuffer as object != dlogQueue as object && msgBuffer as object != msgBufIdx as object
      && msgBuffer as object != queueNext as object
      && (forall b :: 0 <= b < 2 ==> msgBufIdx[b] <= TEXT_BYTES && queueNext[b] <= maxEntries)
    }

    ghost function View(): (st: Store)
      requires Valid()
      reads this, msgBuffer, dlogQueue, msgBufIdx, queueNext
      ensures Sized(st, maxEntries)
    {
      Store([msgBufIdx[0], msgBufIdx[1]], [dlogQueue[..maxEntries], dlogQueue[maxEntries..]], msgBuffer[..])
    }

    constructor (entries: nat)
      ensures Valid() && maxEntries == entries
      ensures fresh(msgBuffer) && fresh(dlogQueue) && fresh(msgBufIdx) && fresh(queueNext)
      ensures View().idx == [0, 0] && queueNext[0] == 0 && queueNext[1] == 0
    {
      maxEntries := entries;
      msgBuffer := new byte[2 * HALF_BYTES];
      dlogQueue := new nat[2 * entries];
      msgBufIdx := new nat[2](_ => 0);
      queueNext := new nat[2](_ => 0);
    }

    /** Lines 188 to 235, with the write lock of half b held and its stamp found right: the entry test,
        the text, the byte test, the bump. The argument is what the format expands to. */
    method StoreUnderLock(b: nat, text: seq<byte>) returns (r: LogResult)
      requires Valid() && b < 2 && 0 !in text
      modifies msgBuffer, dlogQueue, msgBufIdx, queueNext
      ensures Valid()
      ensures r == Full <==> old(queueNext[b]) >= maxEntries
      ensures r == Logged <==> old(queueNext[b]) < maxEntries && Fits(old(msgBufIdx[b]), Clip(text))
      ensures View() == if r == Full then old(View()) else Write(old(View()), maxEntries, b, old(queueNext[b]), Clip(text))
      ensures queueNext[b] == old(queueNext[b]) + if r == Logged then 1 else 0
      ensures queueNext[1 - b] == old(queueNext[1 - b])
    {
      if queueNext[b] >= maxEntries {
        return Full;
      }
      ghost var before := View();
      var a := Base(b) + msgBufIdx[b];
      var line := Clip(text);
      StorePointer(b, a);
      StoreText(a, line + [0]);
      var i := if |text| >= 1023 then 1022 else |text|;
      if msgBufIdx[b] + i + 2 > TEXT_BYTES {
        return Overrun;
      }
      msgBufIdx[b] := msgBufIdx[b] + i + 2;
      queueNext[b] := queueNext[b] + 1;
      r := Logged;
    }

    method StorePointer(b: nat, a: nat)
      requires Valid() && b < 2 && queueNext[b] < maxEntries
      modifies dlogQueue
      ensures Valid()
      ensures var pointers: seq<nat> := old(View()).at[b][queueNext[b] := a];
              View() == old(View()).(at := old(View()).at[b := pointers])
    {
      ghost var low, high := dlogQueue[..maxEntries], dlogQueue[maxEntries..];
      dlogQueue[(if b == 0 then 0 else maxEntries) + queueNext[b]] := a;
      assert msgBuffer[..] == old(msgBuffer[..]);
      if b == 0 {
        assert dlogQueue[..maxEntries] == low[queueNext[b] := a] && dlogQueue[maxEntries..] == high;
      } else {
        assert dlogQueue[..maxEntries] == low && dlogQueue[maxEntries..] == high[queueNext[b] := a];
      }
    }

    method StoreText(a: nat, data: seq<byte>)
      requires Valid() && a + |data| <= msgBuffer.Length
      modifies msgBuffer
      ensures Valid() && View() == old(View()).(arena := Overwrite(old(View()).arena, a, data))
    {
      ghost var before := msgBuffer[..];
      forall k | 0 <= k < |data| {
        msgBuffer[a + k] := data[k];
      }
      assert msgBuffer[..] == Overwrite(before, a, data);
      assert dlogQueue[..maxEntries] == old(dlogQueue[..maxEntries]);
      assert dlogQueue[maxEntries..] == old(dlogQueue[maxEntries..]);
    }

    /** Lines 350 to 379, with the write lock of half b held: every entry is printed, then the half is empty. */
    method DrainUnderLock(b: nat) returns (printed: seq<seq<byte>>)
      requires Valid() && b < 2
      modifies msgBufIdx, queueNext
      ensures Valid() && queueNext[b] == 0 && queueNext[1 - b] == old(queueNext[1 - b])
      ensures View() == old(View()).(idx := old(View()).idx[b := 0])
      ensures |printed| == old(queueNext[b])
      ensures forall i :: 0 <= i < |printed| ==> printed[i] == CString(View().arena, View().at[b][i])
    {
      printed := [];
      var i := 0;
      while i < queueNext[b]
        invariant i == |printed| <= queueNext[b]
        invariant forall k :: 0 <= k < i ==> printed[k] == CString(msgBuffer[..], View().at[b][k])
      {
        var msg := dlogQueue[(if b == 0 then 0 else maxEntries) + i];
        printed := printed + [CString(msgBuffer[..], msg)];
        i := i + 1;
      }
      msgBufIdx[b] := 0;
      queueNext[b] := 0;
    }
  }
}
