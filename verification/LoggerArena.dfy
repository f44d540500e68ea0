/** The log queue of datum_logger.c: the double-buffered queue of QueueProtocol, whose entries point to
    texts in an arena that both halves share. */
module LoggerArena {
  import opened Bytes
  import opened QueueProtocol

  const TEXT_BYTES: nat := 0x80_0000           // DLOG_MSG_BUF_SIZE
  const HALF_BYTES: nat := TEXT_BYTES + 0x1000 // with the over-allocation
  const LONGEST: nat := 1022

  /** A formatted message as vsnprintf stores it, without its terminator. */
  type Line = s: seq<byte> | |s| <= LONGEST && 0 !in s witness []

  /** What is stored of a formatted text: vsnprintf has room for 1023 bytes with the terminator. */
  function Clip(text: seq<byte>): Line
    requires 0 !in text
  {
    if |text| >= 1023 then text[..LONGEST] else text
  }

  /** A text loses only what is beyond its first 1022 bytes. */
  lemma ClipKeeps(text: seq<byte>)
    requires 0 !in text
    ensures Clip(text) <= text && |Clip(text)| == if |text| < 1022 then |text| else 1022
  {
  }

  /** What lines take from a half: each its length and two more bytes. */
  function Taken(lines: seq<Line>): nat {
    if lines == [] then 0 else Taken(lines[..|lines| - 1]) + |lines[|lines| - 1]| + 2
  }

  /** No spare cells; a further test on the bytes left; and every one of the ten million tries takes the
      lock, as the test that should leave out the last one compares with 99999990. */
  function LogLimits(maxEntries: nat): Limits<Line> {
    Limits(maxEntries, 0, 10000000, (lines, x) => Taken(lines) + |x| + 2 <= TEXT_BYTES)
  }

  function Base(b: nat): nat {
    if b == 0 then 0 else HALF_BYTES
  }

  function Overwrite(arena: seq<byte>, a: nat, data: seq<byte>): (r: seq<byte>)
    requires a + |data| <= |arena|
    ensures |r| == |arena|
  {
    arena[..a] + data + arena[a + |data|..]
  }

  // ---------------------------------------------------------------- the stored texts

  /** How the lines of both halves are stored: msg_buf_idx, the pointers in the entries, and the arena. */
  datatype Store = Store(idx: seq<nat>, at: seq<seq<nat>>, arena: seq<byte>)

  ghost predicate TextAt(arena: seq<byte>, a: nat, line: Line) {
    a + |line| < |arena| && arena[a..a + |line|] == line && arena[a + |line|] == 0
  }

  /** Entry i of half b points behind the lines before it, and to its own text. */
  ghost predicate EntryOk(b: nat, lines: seq<Line>, at: seq<nat>, arena: seq<byte>, i: nat)
    requires i < |lines| <= |at|
  {
    at[i] == Base(b) + Taken(lines[..i]) && TextAt(arena, at[i], lines[i])
  }

  /** The lines of half b lie one after the other in its part of the arena. */
  ghost predicate HalfOk(b: nat, lines: seq<Line>, idx: nat, at: seq<nat>, arena: seq<byte>) {
    && idx == Taken(lines) <= TEXT_BYTES && |lines| <= |at|
    && forall i :: 0 <= i < |lines| ==> EntryOk(b, lines, at, arena, i)
  }

  ghost predicate Sized(st: Store, maxEntries: nat) {
    && |st.idx| == 2 && |st.at| == 2 && |st.arena| == 2 * HALF_BYTES
    && forall b :: 0 <= b < 2 ==> st.idx[b] <= TEXT_BYTES && |st.at[b]| == maxEntries
  }

  ghost predicate Holds(st: Store, lines: seq<seq<Line>>, maxEntries: nat) {
    && Sized(st, maxEntries) && |lines| == 2
    && forall b :: 0 <= b < 2 ==> HalfOk(b, lines[b], st.idx[b], st.at[b], st.arena)
  }

  predicate Fits(idx: nat, line: Line) {
    idx + |line| + 2 <= TEXT_BYTES
  }

  /** Lines 195 to 234: entry n and its text are written before the test whether they fit; what does not
      fit is not counted and will be overwritten. */
  ghost function Write(st: Store, maxEntries: nat, b: nat, n: nat, line: Line): Store
    requires Sized(st, maxEntries) && b < 2 && n < maxEntries
  {
    var a := Base(b) + st.idx[b];
    var pointers: seq<nat> := st.at[b][n := a];
    Store(if Fits(st.idx[b], line) then st.idx[b := st.idx[b] + |line| + 2] else st.idx,
          st.at[b := pointers], Overwrite(st.arena, a, line + [0]))
  }

  lemma {:induction false} TakenPrefix(lines: seq<Line>, i: nat)
    requires i < |lines|
    ensures Taken(lines[..i]) + |lines[i]| + 2 <= Taken(lines)
  {
    var last := |lines| - 1;
    if i < last {
      TakenPrefix(lines[..last], i);
      assert lines[..last][..i] == lines[..i];
    }
  }

  /** Writing behind the lines of half b leaves the texts of both halves alone. */
  lemma WriteKeeps(b: nat, c: nat, lines: seq<Line>, idx: nat, at: seq<nat>, arena: seq<byte>, from: nat, line: Line)
    requires b < 2 && c < 2 && |arena| == 2 * HALF_BYTES && from <= TEXT_BYTES
    requires HalfOk(c, lines, idx, at, arena) && (c == b ==> idx == from)
    ensures HalfOk(c, lines, idx, at, Overwrite(arena, Base(b) + from, line + [0]))
  {
    var p, data := Base(b) + from, line + [0];
    forall i | 0 <= i < |lines| ensures EntryOk(c, lines, at, Overwrite(arena, p, data), i) {
      assert EntryOk(c, lines, at, arena, i);
      TakenPrefix(lines, i);
      TextKept(arena, p, data, at[i], lines[i]);
    }
  }

  lemma TextKept(arena: seq<byte>, p: nat, data: seq<byte>, a: nat, line: Line)
    requires p + |data| <= |arena| && TextAt(arena, a, line)
    requires a + |line| < p || p + |data| <= a
    ensures TextAt(Overwrite(arena, p, data), a, line)
  {
    var after := Overwrite(arena, p, data);
    assert forall k :: a <= k <= a + |line| ==> after[k] == arena[k];
    assert after[a..a + |line|] == arena[a..a + |line|];
  }

  lemma WrittenText(arena: seq<byte>, a: nat, line: Line)
    requires a + |line| < |arena|
    ensures TextAt(Overwrite(arena, a, line + [0]), a, line)
  {
    var after := Overwrite(arena, a, line + [0]);
    assert after[a..a + |line|] == line;
  }

  lemma AppendKeeps(b: nat, lines: seq<Line>, idx: nat, at: seq<nat>, arena: seq<byte>, line: Line)
    requires b < 2 && |arena| == 2 * HALF_BYTES && |lines| < |at|
    requires HalfOk(b, lines, idx, at, arena) && idx + |line| + 2 <= TEXT_BYTES
    ensures HalfOk(b, lines + [line], idx + |line| + 2, at[|lines| := Base(b) + idx],
                   Overwrite(arena, Base(b) + idx, line + [0]))
  {
    var a, n := Base(b) + idx, |lines|;
    var after, more := Overwrite(arena, a, line + [0]), lines + [line];
    WriteKeeps(b, b, lines, idx, at, arena, idx, line);
    assert more[..n] == lines;
    WrittenText(arena, a, line);
    var pointers := at[n := a];
    forall i | 0 <= i < n + 1 ensures EntryOk(b, more, pointers, after, i) {
      if i < n {
        assert EntryOk(b, lines, at, after, i) && more[..i] == lines[..i];
      }
    }
  }

  /** Only the pointers of the counted entries matter. */
  lemma PointersKept(b: nat, lines: seq<Line>, idx: nat, at: seq<nat>, at': seq<nat>, arena: seq<byte>)
    requires HalfOk(b, lines, idx, at, arena) && |at'| == |at|
    requires forall i :: 0 <= i < |lines| ==> at'[i] == at[i]
    ensures HalfOk(b, lines, idx, at', arena)
  {
    forall i | 0 <= i < |lines| ensures EntryOk(b, lines, at', arena, i) {
      assert EntryOk(b, lines, at, arena, i);
    }
  }

  lemma WriteOwn(b: nat, lines: seq<Line>, idx: nat, at: seq<nat>, arena: seq<byte>, line: Line)
    requires b < 2 && |arena| == 2 * HALF_BYTES && |lines| < |at| && HalfOk(b, lines, idx, at, arena)
    ensures HalfOk(b, if Fits(idx, line) then lines + [line] else lines, if Fits(idx, line) then idx + |line| + 2 else idx,
                   at[|lines| := Base(b) + idx], Overwrite(arena, Base(b) + idx, line + [0]))
  {
    if Fits(idx, line) {
      AppendKeeps(b, lines, idx, at, arena, line);
    } else {
      var after := Overwrite(arena, Base(b) + idx, line + [0]);
      WriteKeeps(b, b, lines, idx, at, arena, idx, line);
      PointersKept(b, lines, idx, at, at[|lines| := Base(b) + idx], after);
    }
  }

  ghost predicate HalfHolds(st: Store, lines: seq<seq<Line>>, b: nat)
    requires |st.idx| == 2 && |st.at| == 2 && |lines| == 2 && b < 2
  {
    HalfOk(b, lines[b], st.idx[b], st.at[b], st.arena)
  }

  ghost function LinesAfter(st: Store, lines: seq<seq<Line>>, b: nat, line: Line): seq<seq<Line>>
    requires |st.idx| == 2 && |lines| == 2 && b < 2
  {
    if Fits(st.idx[b], line) then lines[b := lines[b] + [line]] else lines
  }

  lemma WriteHoldsOwn(st: Store, lines: seq<seq<Line>>, maxEntries: nat, b: nat, line: Line)
    requires Holds(st, lines, maxEntries) && b < 2 && |lines[b]| < maxEntries
    ensures HalfHolds(Write(st, maxEntries, b, |lines[b]|, line), LinesAfter(st, lines, b, line), b)
  {
    assert HalfOk(b, lines[b], st.idx[b], st.at[b], st.arena);
    WriteOwn(b, lines[b], st.idx[b], st.at[b], st.arena, line);
  }

  lemma WriteHoldsOther(st: Store, lines: seq<seq<Line>>, maxEntries: nat, b: nat, line: Line)
    requires Holds(st, lines, maxEntries) && b < 2 && |lines[b]| < maxEntries
    ensures HalfHolds(Write(st, maxEntries, b, |lines[b]|, line), LinesAfter(st, lines, b, line), Other(b))
  {
    var c := Other(b);
    assert HalfOk(b, lines[b], st.idx[b], st.at[b], st.arena) && HalfOk(c, lines[c], st.idx[c], st.at[c], st.arena);
    WriteKeeps(b, c, lines[c], st.idx[c], st.at[c], st.arena, st.idx[b], line);
  }

  /** Logging a line puts it behind the lines of its half if it fits, and else changes no line. */
  lemma WriteHolds(st: Store, lines: seq<seq<Line>>, maxEntries: nat, b: nat, line: Line)
    requires Holds(st, lines, maxEntries) && b < 2 && |lines[b]| < maxEntries
    ensures Fits(st.idx[b], line) <==> Taken(lines[b]) + |line| + 2 <= TEXT_BYTES
    ensures Holds(Write(st, maxEntries, b, |lines[b]|, line), LinesAfter(st, lines, b, line), maxEntries)
  {
    assert HalfOk(b, lines[b], st.idx[b], st.at[b], st.arena);
    WriteHoldsOwn(st, lines, maxEntries, b, line);
    WriteHoldsOther(st, lines, maxEntries, b, line);
    BothHold(Write(st, maxEntries, b, |lines[b]|, line), LinesAfter(st, lines, b, line), maxEntries, b);
  }

  lemma BothHold(st: Store, lines: seq<seq<Line>>, maxEntries: nat, b: nat)
    requires Sized(st, maxEntries) && |lines| == 2 && b < 2
    requires HalfHolds(st, lines, b) && HalfHolds(st, lines, Other(b))
    ensures Holds(st, lines, maxEntries)
  {
  }

  lemma ClearHolds(st: Store, lines: seq<seq<Line>>, maxEntries: nat, b: nat)
    requires Holds(st, lines, maxEntries) && b < 2
    ensures Holds(st.(idx := st.idx[b := 0]), lines[b := []], maxEntries)
  {
    assert HalfOk(0, lines[0], st.idx[0], st.at[0], st.arena) && HalfOk(1, lines[1], st.idx[1], st.at[1], st.arena);
  }

  /** A line is logged exactly if its half has an entry and, with two more bytes, room for it; and giving up
      takes ten million swaps. */
  lemma LoggerAdmits(s: Sys<Line>, p: nat, maxEntries: nat)
    requires QueueProtocol.Inv(s) && s.q.limits == LogLimits(maxEntries)
    ensures p in s.producers && s.producers[p].Holding? && s.producers[p].seen == s.swaps ==>
              var lines := s.q.Contents(s.q.active);
              (QueueProtocol.Apply(s, Decide(p)).added == s.added + [s.producers[p].item]
               <==> |lines| < maxEntries && Taken(lines) + |s.producers[p].item| + 2 <= 0x80_0000)
    ensures forall b :: 0 <= b < 2 ==> |s.q.halves[b].cells| == maxEntries
    ensures Enabled(s, GiveUp(p)) <==> p in s.producers && s.producers[p].Trying? && s.producers[p].tries >= 10_000_000
    ensures Enabled(s, GiveUp(p)) ==> s.swaps >= 10_000_000
  {
    if p in s.producers && s.producers[p].Holding? {
      AttemptOutcome(s, p);
    }
    if Enabled(s, GiveUp(p)) {
      GiveUpNeedsManySwaps(s, p);
    }
  }

  /** What the writer reads is the line that was formatted. */
  lemma ReadsTheLine(st: Store, lines: seq<seq<Line>>, maxEntries: nat, b: nat, i: nat)
    requires Holds(st, lines, maxEntries) && b < 2 && i < |lines[b]|
    ensures CString(st.arena, st.at[b][i]) == lines[b][i]
  {
    assert HalfOk(b, lines[b], st.idx[b], st.at[b], st.arena);
    assert EntryOk(b, lines[b], st.at[b], st.arena, i);
    CStringEnds(st.arena, st.at[b][i], |lines[b][i]|);
  }

  lemma EntriesApart(lines: seq<Line>, i: nat, j: nat)
    requires i < j <= |lines|
    ensures Taken(lines[..i]) + |lines[i]| + 2 <= Taken(lines[..j])
  {
    TakenPrefix(lines[..j], i);
    assert lines[..j][..i] == lines[..i];
  }

  /** The texts of two entries never overlap, and each lies in the part of the arena its half owns. */
  lemma TextsAreDisjoint(st: Store, lines: seq<seq<Line>>, maxEntries: nat, b: nat, i: nat, c: nat, j: nat)
    requires Holds(st, lines, maxEntries) && b < 2 && c < 2
    requires i < |lines[b]| && j < |lines[c]| && (b, i) != (c, j)
    ensures var x, m := st.at[b][i], |lines[b][i]| + 1;
            var y, n := st.at[c][j], |lines[c][j]| + 1;
            && Base(b) <= x && x + m <= Base(b) + TEXT_BYTES
            && (x + m <= y || y + n <= x)
  {
    assert HalfOk(b, lines[b], st.idx[b], st.at[b], st.arena) && HalfOk(c, lines[c], st.idx[c], st.at[c], st.arena);
    assert EntryOk(b, lines[b], st.at[b], st.arena, i) && EntryOk(c, lines[c], st.at[c], st.arena, j);
    TakenPrefix(lines[b], i);
    TakenPrefix(lines[c], j);
    if b == c {
      if i < j {
        EntriesApart(lines[b], i, j);
      } else {
        EntriesApart(lines[b], j, i);
      }
    }
  }

  /** Even a text that does not fit stays within the over-allocated part of its half. */
  lemma OverrunStaysInItsHalf(st: Store, lines: seq<seq<Line>>, maxEntries: nat, b: nat, line: Line)
    requires Holds(st, lines, maxEntries) && b < 2
    ensures Base(b) + st.idx[b] + |line + [0]| <= Base(b) + HALF_BYTES
    ensures Base(0) + HALF_BYTES == Base(1) && Base(1) + HALF_BYTES == |st.arena| == 2 * 0x80_1000
  {
    assert HalfOk(b, lines[b], st.idx[b], st.at[b], st.arena);
  }

  // ---------------------------------------------------------------- the logger as a protocol

  /** The queue of lines, how it is really stored, and what the writer has read and printed. */
  datatype Log = Log(q: Sys<Line>, st: Store, written: seq<seq<byte>>)

  ghost predicate Shape(s: Log) {
    && WellFormed(s.q) && s.q.q.limits == LogLimits(s.q.q.limits.maxEntries) && Sized(s.st, s.q.q.limits.maxEntries)
  }

  ghost predicate Init(s: Log) {
    Shape(s) && QueueProtocol.Init(s.q) && s.st.idx == [0, 0] && s.written == []
  }

  /** A thread whose stamp is right and whose half has an entry left logs its line. */
  ghost predicate Logs(q: Sys<Line>, step: Step<Line>)
    requires WellFormed(q) && Enabled(q, step)
  {
    match step
    case Decide(p) =>
      var pc := q.producers[p];
      pc.v == q.q.halves[pc.b].version && q.q.halves[pc.b].next < q.q.limits.maxEntries
    case _ => false
  }

  ghost function Apply(s: Log, step: Step<Line>): Log
    requires Shape(s) && Enabled(s.q, step)
  {
    match step
    case Decide(p) =>
      if Logs(s.q, step) then
        var b, line := s.q.producers[p].b, s.q.producers[p].item;
        s.(q := if Fits(s.st.idx[b], line) then Stored(s.q, p) else Left(s.q, p),
           st := Write(s.st, s.q.q.limits.maxEntries, b, s.q.q.halves[b].next, line))
      else s.(q := QueueProtocol.Apply(s.q, step))
    case Handle =>
      s.(q := QueueProtocol.Apply(s.q, step),
         written := s.written + [CString(s.st.arena, s.st.at[s.q.consumer.b][s.q.consumer.i])])
    case Finish =>
      s.(q := QueueProtocol.Apply(s.q, step), st := s.st.(idx := s.st.idx[s.q.consumer.b := 0]))
    case _ => s.(q := QueueProtocol.Apply(s.q, step))
  }

  ghost function LinesOf(q: Shared<Line>): (lines: seq<seq<Line>>)
    requires q.Ok()
    ensures |lines| == 2 && forall b :: 0 <= b < 2 ==> lines[b] == q.Contents(b)
  {
    [q.Contents(0), q.Contents(1)]
  }

  ghost predicate Inv(s: Log) {
    && Shape(s) && QueueProtocol.Inv(s.q)
    && Holds(s.st, LinesOf(s.q.q), s.q.q.limits.maxEntries)
    && s.written == s.q.processed
  }

  // What a step of the queue does to the lines of the two halves.

  lemma StoredLines(q: Sys<Line>, p: nat)
    requires QueueProtocol.Inv(q) && Enabled(q, Decide(p)) && EffectOf(q, Decide(p)).Enqueue?
    ensures var q', b := Decided(q, p), q.producers[p].b;
            && q'.q.Ok() && q'.q.limits == q.q.limits
            && LinesOf(q'.q) == LinesOf(q.q)[b := q.q.Contents(b) + [q.producers[p].item]]
  {
    var q', b := Decided(q, p), q.producers[p].b;
    assert q'.q.Contents(b) == q.q.Contents(b) + [q.producers[p].item];
    assert q'.q.Contents(Other(b)) == q.q.Contents(Other(b));
  }

  lemma DecideLines(q: Sys<Line>, p: nat)
    requires QueueProtocol.Inv(q) && Enabled(q, Decide(p))
    ensures var q', b := QueueProtocol.Apply(q, Decide(p)), q.producers[p].b;
            && q'.q.Ok() && q'.q.limits == q.q.limits
            && LinesOf(q'.q) == if EffectOf(q, Decide(p)).Enqueue?
                                then LinesOf(q.q)[b := q.q.Contents(b) + [q.producers[p].item]] else LinesOf(q.q)
  {
    if EffectOf(q, Decide(p)).Enqueue? {
      StoredLines(q, p);
    }
  }

  lemma FinishLines(q: Sys<Line>)
    requires QueueProtocol.Inv(q) && Enabled(q, Finish)
    ensures var q' := QueueProtocol.Apply(q, Finish);
            q'.q.Ok() && q'.q.limits == q.q.limits && LinesOf(q'.q) == LinesOf(q.q)[q.consumer.b := []]
  {
    assert QueueProtocol.Apply(q, Finish).q.Contents(q.consumer.b) == [];
  }

  lemma SwapLines(q: Sys<Line>)
    requires QueueProtocol.Inv(q) && Enabled(q, LockOfflineAndSwap)
    ensures var q' := QueueProtocol.Apply(q, LockOfflineAndSwap);
            q'.q.Ok() && q'.q.limits == q.q.limits && LinesOf(q'.q) == LinesOf(q.q)
  {
    ResetDiscardsNothing(q);
  }

  lemma OtherLines(q: Sys<Line>, step: Step<Line>)
    requires QueueProtocol.Inv(q) && Enabled(q, step)
    requires !step.Decide? && !step.Finish? && !step.LockOfflineAndSwap?
    ensures var q' := QueueProtocol.Apply(q, step);
            q'.q.Ok() && q'.q.limits == q.q.limits && LinesOf(q'.q) == LinesOf(q.q)
  {
    if step.LockActiveForSwap? {
      var q' := QueueProtocol.Apply(q, step);
      assert q'.q.Contents(0) == q.q.Contents(0) && q'.q.Contents(1) == q.q.Contents(1);
    } else {
      assert QueueProtocol.Apply(q, step).q == q.q;
    }
  }

  // ---------------------------------------------------------------- steps keep the invariant

  /** The byte test on msg_buf_idx is the admission test of the queue, so the queue of lines takes
      exactly one of its own steps; what does not fit is never exposed to the writer. */
  lemma LogStep(s: Log, p: nat)
    requires Inv(s) && Enabled(s.q, Decide(p)) && Logs(s.q, Decide(p))
    ensures Apply(s, Decide(p)).q == QueueProtocol.Apply(s.q, Decide(p))
    ensures Holds(Apply(s, Decide(p)).st, LinesOf(Apply(s, Decide(p)).q.q), s.q.q.limits.maxEntries)
  {
    var b, line := s.q.producers[p].b, s.q.producers[p].item;
    WriteHolds(s.st, LinesOf(s.q.q), s.q.q.limits.maxEntries, b, line);
    DecideLines(s.q, p);
  }

  /** No line logged: the stamp was stale, or no entry is left. */
  lemma NotLoggedStep(s: Log, p: nat)
    requires Inv(s) && Enabled(s.q, Decide(p)) && !Logs(s.q, Decide(p))
    ensures Apply(s, Decide(p)).q == QueueProtocol.Apply(s.q, Decide(p))
    ensures Holds(Apply(s, Decide(p)).st, LinesOf(Apply(s, Decide(p)).q.q), s.q.q.limits.maxEntries)
  {
    DecideLines(s.q, p);
  }

  lemma DecideProcessesNothing(q: Sys<Line>, p: nat)
    requires QueueProtocol.Inv(q) && Enabled(q, Decide(p))
    ensures var q' := QueueProtocol.Apply(q, Decide(p));
            QueueProtocol.Inv(q') && q'.processed == q.processed && q'.q.limits == q.q.limits
  {
    StepRefinesFifo(q, Decide(p));
  }

  lemma DecideInv(s: Log, p: nat)
    requires Inv(s) && Enabled(s.q, Decide(p))
    ensures Inv(Apply(s, Decide(p))) && Apply(s, Decide(p)).q == QueueProtocol.Apply(s.q, Decide(p))
  {
    DecideProcessesNothing(s.q, p);
    if Logs(s.q, Decide(p)) {
      LogStep(s, p);
    } else {
      NotLoggedStep(s, p);
    }
  }

  lemma WriterInv(s: Log, step: Step<Line>)
    requires Inv(s) && Enabled(s.q, step) && (step.Handle? || step.Finish?)
    ensures Inv(Apply(s, step))
  {
    StepRefinesFifo(s.q, step);
    if step.Handle? {
      OtherLines(s.q, step);
      ReadsTheLine(s.st, LinesOf(s.q.q), s.q.q.limits.maxEntries, s.q.consumer.b, s.q.consumer.i);
    } else {
      FinishLines(s.q);
      ClearHolds(s.st, LinesOf(s.q.q), s.q.q.limits.maxEntries, s.q.consumer.b);
    }
  }

  lemma OtherInv(s: Log, step: Step<Line>)
    requires Inv(s) && Enabled(s.q, step) && !step.Decide? && !step.Handle? && !step.Finish?
    ensures Inv(Apply(s, step))
  {
    StepRefinesFifo(s.q, step);
    if step.LockOfflineAndSwap? {
      SwapLines(s.q);
    } else {
      OtherLines(s.q, step);
    }
    assert s.q.processed == QueueProtocol.Apply(s.q, step).processed;
  }

  /** Every step keeps the invariant and is a step of the queue of lines. */
  lemma StepInv(s: Log, step: Step<Line>)
    requires Inv(s) && Enabled(s.q, step)
    ensures Inv(Apply(s, step)) && Apply(s, step).q == QueueProtocol.Apply(s.q, step)
  {
    if step.Decide? {
      DecideInv(s, step.p);
    } else if step.Handle? || step.Finish? {
      WriterInv(s, step);
    } else {
      OtherInv(s, step);
    }
  }

  // ---------------------------------------------------------------- theorems over whole runs

  ghost predicate IsRun(states: seq<Log>, steps: seq<Step<Line>>) {
    && |states| == |steps| + 1
    && Init(states[0])
    && forall i :: 0 <= i < |steps| ==>
         Enabled(states[i].q, steps[i]) && (Shape(states[i]) ==> states[i + 1] == Apply(states[i], steps[i]))
  }

  ghost predicate Follows(q: Sys<Line>, step: Step<Line>, q': Sys<Line>) {
    WellFormed(q) && Enabled(q, step) && q' == QueueProtocol.Apply(q, step)
  }

  ghost function Queues(states: seq<Log>): (qs: seq<Sys<Line>>)
    ensures |qs| == |states| && forall i :: 0 <= i < |states| ==> qs[i] == states[i].q
  {
    seq(|states|, i requires 0 <= i < |states| => states[i].q)
  }

  lemma InitInv(s: Log)
    requires Init(s)
    ensures Inv(s)
  {
    QueueProtocol.InitInv(s.q);
    assert s.q.q.Contents(0) == [] && s.q.q.Contents(1) == [];
  }

  lemma {:induction false} RunInv(states: seq<Log>, steps: seq<Step<Line>>, n: nat)
    requires IsRun(states, steps) && n < |states|
    ensures Inv(states[n])
    ensures n > 0 ==> Follows(states[n - 1].q, steps[n - 1], states[n].q)
  {
    if n == 0 {
      InitInv(states[0]);
    } else {
      RunInv(states, steps, n - 1);
      StepInv(states[n - 1], steps[n - 1]);
    }
  }

  /** A logger's run is a run of the queue of lines. */
  lemma RunIsQueueRun(states: seq<Log>, steps: seq<Step<Line>>)
    requires IsRun(states, steps)
    ensures QueueProtocol.IsRun(Queues(states), steps)
  {
    forall i | 0 <= i < |steps| ensures Follows(states[i].q, steps[i], states[i + 1].q) {
      RunInv(states, steps, i + 1);
    }
  }

  /** Over every interleaving of any number of logging threads with the writer, what was printed, with
      what still waits, is exactly what was logged, in order and letter by letter. */
  lemma WrittenAsFormatted(states: seq<Log>, steps: seq<Step<Line>>, n: nat)
    requires IsRun(states, steps) && n < |states|
    ensures Inv(states[n])
    ensures QueueProtocol.IsRun(Queues(states), steps) && forall i :: 0 <= i < n ==> QueueProtocol.Inv(Queues(states)[i])
    ensures Additions(Queues(states), steps, n) == states[n].written + Pending(states[n].q)
  {
    RunInv(states, steps, n);
    RunIsQueueRun(states, steps);
    QueueIsFifo(Queues(states), steps, n);
  }
}
