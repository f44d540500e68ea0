/** What a share message has to carry (datum_protocol.c): the pool is sent the merkle branches and each
    coinbase of a job once for each session, and flags say what it has. */
module ShareSubmission {
  import opened Bytes

  const JOBS: nat := 8       // MAX_DATUM_PROTOCOL_JOBS
  const COINBASES: nat := 8

  /** A stratum job, by identity. */
  type Job = nat

  /** T_DATUM_PROTOCOL_JOB: the job of a slot and what the server has of it. */
  datatype Slot = Slot(job: Option<Job>, hasMerkle: bool, hasCoinbase: seq<bool>, hasEmpty: bool)

  /** The coinbase a share was made with: one of the types, or the subsidy-only one. */
  datatype Which = Type(id: nat) | SubsidyOnly

  /** T_DATUM_PROTOCOL_POW, as far as it matters here. */
  datatype Pow = Pow(slot: nat, coinbaseId: nat, subsidyOnly: bool) {
    function Coinbase(): Which {
      if subsidyOnly then SubsidyOnly else Type(coinbaseId)
    }
  }

  datatype Section = Merkle(job: Job) | Coinb(which: Which, job: Job)

  /** A submission on the stream. The field job records which job the slot held; no step looks at it. */
  datatype Message = Message(slot: nat, which: Which, sections: seq<Section>, job: Job)

  datatype Table = Table(next: nat, slots: seq<Slot>, stream: seq<Message>)

  function NoFlags(): seq<bool> {
    seq(COINBASES, _ => false)
  }

  // ---------------------------------------------------------------- the steps

  /** datum_protocol_setup_new_job_idx */
  function NewJob(t: Table, job: Job): Table
    requires t.next < |t.slots|
  {
    t.(next := if t.next + 1 >= JOBS then 0 else t.next + 1,
       slots := t.slots[t.next := Slot(Some(job), false, NoFlags(), false)])
  }

  function Cleared(s: Slot): Slot {
    Slot(s.job, false, NoFlags(), false)
  }

  /** Lines 1482 to 1492, at the start of a session. */
  function Reconnected(t: Table): Table {
    t.(slots := seq(|t.slots|, i requires 0 <= i < |t.slots| => Cleared(t.slots[i])), stream := [])
  }

  predicate HasCoinbase(s: Slot, w: Which) {
    match w
    case Type(id) => id < |s.hasCoinbase| && s.hasCoinbase[id]
    case SubsidyOnly => s.hasEmpty
  }

  function WithCoinbase(s: Slot, w: Which): Slot
    requires w.Type? ==> w.id < |s.hasCoinbase|
  {
    match w
    case Type(id) => s.(hasCoinbase := s.hasCoinbase[id := true])
    case SubsidyOnly => s.(hasEmpty := true)
  }

  /** The test at line 1324. */
  predicate BadCoinbase(p: Pow) {
    p.coinbaseId > 7 && p.coinbaseId != 0xFF && p.subsidyOnly
  }

  /** The sections of the message for a slot in this state. */
  function SectionsFor(s: Slot, job: Job, w: Which): seq<Section> {
    (if s.hasMerkle then [] else [Merkle(job)]) + if HasCoinbase(s, w) then [] else [Coinb(w, job)]
  }

  /** datum_protocol_pow, with the sending successful. */
  function Submit(t: Table, p: Pow): Table
    requires p.slot < |t.slots| && (!p.subsidyOnly ==> p.coinbaseId < |t.slots[p.slot].hasCoinbase|)
  {
    var s := t.slots[p.slot];
    if BadCoinbase(p) || s.job.None? then t
    else
      var w := p.Coinbase();
      t.(slots := t.slots[p.slot := WithCoinbase(s.(hasMerkle := true), w)],
         stream := t.stream + [Message(p.slot, w, SectionsFor(s, s.job.value, w), s.job.value)])
  }

  // ---------------------------------------------------------------- the other side

  /** What the pool knows: for each slot the job whose branches it was sent last, and the same for each of
      the slot's coinbases. */
  datatype Server = Server(merkle: map<nat, Job>, coinbases: map<(nat, Which), Job>)

  function Learn(v: Server, slot: nat, s: Section): Server {
    match s
    case Merkle(job) => v.(merkle := v.merkle[slot := job])
    case Coinb(w, job) => v.(coinbases := v.coinbases[(slot, w) := job])
  }

  function LearnAll(v: Server, slot: nat, ss: seq<Section>): Server
    decreases |ss|
  {
    if ss == [] then v else LearnAll(Learn(v, slot, ss[0]), slot, ss[1..])
  }

  function Replay(stream: seq<Message>): Server {
    if stream == [] then Server(map[], map[])
    else
      var last := stream[|stream| - 1];
      LearnAll(Replay(stream[..|stream| - 1]), last.slot, last.sections)
  }

  /** The pool can make sense of a share: it has branches and coinbase of the job that the slot held when
      the share was sent (see ShareNamesItsJobIff for whether it was made for that job). */
  ghost predicate Understood(v: Server, m: Message) {
    && m.slot in v.merkle && v.merkle[m.slot] == m.job
    && (m.slot, m.which) in v.coinbases && v.coinbases[(m.slot, m.which)] == m.job
  }

  // ---------------------------------------------------------------- the invariant

  ghost predicate Shape(t: Table) {
    && |t.slots| == JOBS && t.next < JOBS
    && forall a :: 0 <= a < JOBS ==> |t.slots[a].hasCoinbase| == COINBASES
  }

  /** The pool has the branches of this job for this slot. */
  ghost predicate KnowsMerkle(v: Server, a: nat, job: Job) {
    a in v.merkle && v.merkle[a] == job
  }

  ghost predicate KnowsCoinbase(v: Server, a: nat, w: Which, job: Job) {
    (a, w) in v.coinbases && v.coinbases[(a, w)] == job
  }

  /** The flags of a slot say exactly what the pool has of the slot's current job. */
  ghost predicate FlagsRight(v: Server, a: nat, s: Slot) {
    match s.job
    case None => !s.hasMerkle && !s.hasEmpty && forall id :: 0 <= id < |s.hasCoinbase| ==> !s.hasCoinbase[id]
    case Some(job) =>
      && (s.hasMerkle <==> KnowsMerkle(v, a, job))
      && forall w: Which :: (w.Type? ==> w.id < |s.hasCoinbase|) ==> (HasCoinbase(s, w) <==> KnowsCoinbase(v, a, w, job))
  }

  ghost predicate Inv(t: Table) {
    && Shape(t) && Named(t.stream)
    && forall a :: 0 <= a < JOBS ==> FlagsRight(Replay(t.stream), a, t.slots[a])
  }

  /** Sections are about the job that the slot held. */
  ghost predicate Named(stream: seq<Message>) {
    forall k, i :: 0 <= k < |stream| && 0 <= i < |stream[k].sections| ==> stream[k].sections[i].job == stream[k].job
  }

  /** The pool was not sent anything of this job in this session: it is a new one. */
  ghost predicate Unheard(stream: seq<Message>, job: Job) {
    forall k :: 0 <= k < |stream| ==> stream[k].job != job
  }

  lemma {:induction false} UnheardUnknown(stream: seq<Message>, job: Job, a: nat, w: Which)
    requires Named(stream) && Unheard(stream, job)
    ensures !KnowsMerkle(Replay(stream), a, job) && !KnowsCoinbase(Replay(stream), a, w, job)
  {
    if stream != [] {
      var n := |stream| - 1;
      UnheardUnknown(stream[..n], job, a, w);
      OthersUnknown(Replay(stream[..n]), stream[n].slot, stream[n].sections, job, a, w);
    }
  }

  lemma {:induction false} OthersUnknown(v: Server, slot: nat, ss: seq<Section>, job: Job, a: nat, w: Which)
    requires forall i :: 0 <= i < |ss| ==> ss[i].job != job
    requires !KnowsMerkle(v, a, job) && !KnowsCoinbase(v, a, w, job)
    ensures !KnowsMerkle(LearnAll(v, slot, ss), a, job) && !KnowsCoinbase(LearnAll(v, slot, ss), a, w, job)
    decreases |ss|
  {
    if ss != [] {
      OthersUnknown(Learn(v, slot, ss[0]), slot, ss[1..], job, a, w);
    }
  }

  /** What the pool knows after a share's message. */
  lemma {:induction false} LearnsMissing(v: Server, a: nat, s: Slot, job: Job, w: Which)
    requires s.hasMerkle ==> KnowsMerkle(v, a, job)
    requires HasCoinbase(s, w) ==> KnowsCoinbase(v, a, w, job)
    ensures var v' := LearnAll(v, a, SectionsFor(s, job, w));
            && v'.merkle == v.merkle[a := job]
            && v'.coinbases == v.coinbases[(a, w) := job]
  {
    var first := if s.hasMerkle then [] else [Merkle(job)];
    var second := if HasCoinbase(s, w) then [] else [Coinb(w, job)];
    LearnConcat(v, a, first, second);
    LearnOne(v, a, Merkle(job));
    LearnOne(LearnAll(v, a, first), a, Coinb(w, job));
  }

  lemma {:induction false} LearnOne(v: Server, a: nat, s: Section)
    ensures LearnAll(v, a, [s]) == Learn(v, a, s) && LearnAll(v, a, []) == v
  {
    assert [s][1..] == [];
    assert LearnAll(Learn(v, a, s), a, []) == Learn(v, a, s);
  }

  lemma {:induction false} LearnConcat(v: Server, a: nat, x: seq<Section>, y: seq<Section>)
    ensures LearnAll(v, a, x + y) == LearnAll(LearnAll(v, a, x), a, y)
    decreases |x|
  {
    if x == [] {
      assert x + y == y;
    } else {
      LearnConcat(Learn(v, a, x[0]), a, x[1..], y);
      assert (x + y)[1..] == x[1..] + y;
    }
  }

  lemma {:induction false} ReplayAppend(stream: seq<Message>, m: Message)
    ensures Replay(stream + [m]) == LearnAll(Replay(stream), m.slot, m.sections)
  {
    assert (stream + [m])[..|stream|] == stream;
  }

  // ---------------------------------------------------------------- steps keep the invariant

  datatype Step = Assign(job: Job) | Reconnect | Share(p: Pow)

  /** The stratum side numbers the coinbases below eight, and gives each job an identity of its own. */
  ghost predicate Enabled(t: Table, step: Step) {
    match step
    case Assign(job) => Unheard(t.stream, job)
    case Reconnect => true
    case Share(p) => p.slot < 8 && (!p.subsidyOnly ==> p.coinbaseId < 8)
  }

  ghost function Apply(t: Table, step: Step): Table
    requires Shape(t) && Enabled(t, step)
  {
    match step
    case Assign(job) => NewJob(t, job)
    case Reconnect => Reconnected(t)
    case Share(p) => Submit(t, p)
  }

  lemma {:induction false} AssignInv(t: Table, job: Job)
    requires Inv(t) && Enabled(t, Assign(job))
    ensures Inv(NewJob(t, job))
  {
    var v, a, s := Replay(t.stream), t.next, Slot(Some(job), false, NoFlags(), false);
    forall w: Which ensures !KnowsMerkle(v, a, job) && !KnowsCoinbase(v, a, w, job) {
      UnheardUnknown(t.stream, job, a, w);
    }
    UnheardUnknown(t.stream, job, a, SubsidyOnly);
    assert FlagsRight(v, a, s);
    forall b | 0 <= b < JOBS ensures FlagsRight(v, b, NewJob(t, job).slots[b]) {
      assert FlagsRight(v, b, t.slots[b]);
    }
  }

  lemma {:induction false} ReconnectInv(t: Table)
    requires Inv(t)
    ensures Inv(Reconnected(t))
  {
    forall a | 0 <= a < JOBS ensures FlagsRight(Replay([]), a, Cleared(t.slots[a])) {
      assert FlagsRight(Replay(t.stream), a, t.slots[a]);
    }
  }

  lemma {:induction false} SubmitInv(t: Table, p: Pow)
    requires Inv(t) && Enabled(t, Share(p))
    ensures Inv(Submit(t, p))
    ensures var t' := Submit(t, p); t' != t ==> |t'.stream| > 0 && Understood(Replay(t'.stream), t'.stream[|t'.stream| - 1])
  {
    var a, s, v := p.slot, t.slots[p.slot], Replay(t.stream);
    assert FlagsRight(v, a, s);
    if !BadCoinbase(p) && s.job.Some? {
      var w, job := p.Coinbase(), s.job.value;
      var m := Message(a, w, SectionsFor(s, job, w), job);
      LearnsMissing(v, a, s, job, w);
      ReplayAppend(t.stream, m);
      var v', t' := Replay(t.stream + [m]), Submit(t, p);
      SlotLearned(v, v', a, s, job, w);
      forall b | 0 <= b < JOBS && b != a ensures FlagsRight(v', b, t'.slots[b]) {
        OtherSlot(v, v', a, job, w, b, t.slots[b]);
      }
      assert Named(t'.stream);
    }
  }

  /** After a share the flags of its slot are right again. */
  lemma {:induction false} SlotLearned(v: Server, v': Server, a: nat, s: Slot, job: Job, w: Which)
    requires s.job == Some(job) && FlagsRight(v, a, s) && (w.Type? ==> w.id < |s.hasCoinbase|)
    requires v'.merkle == v.merkle[a := job] && v'.coinbases == v.coinbases[(a, w) := job]
    ensures FlagsRight(v', a, WithCoinbase(s.(hasMerkle := true), w))
  {
    var s' := WithCoinbase(s.(hasMerkle := true), w);
    forall x: Which | x.Type? ==> x.id < |s'.hasCoinbase|
      ensures HasCoinbase(s', x) <==> KnowsCoinbase(v', a, x, job)
    {
      assert HasCoinbase(s, x) <==> KnowsCoinbase(v, a, x, job);
    }
  }

  lemma {:induction false} OtherSlot(v: Server, v': Server, a: nat, job: Job, w: Which, b: nat, s: Slot)
    requires b != a && FlagsRight(v, b, s)
    requires v'.merkle == v.merkle[a := job] && v'.coinbases == v.coinbases[(a, w) := job]
    ensures FlagsRight(v', b, s)
  {
    if s.job.Some? {
      forall x: Which | x.Type? ==> x.id < |s.hasCoinbase|
        ensures HasCoinbase(s, x) <==> KnowsCoinbase(v', b, x, s.job.value)
      {
        assert HasCoinbase(s, x) <==> KnowsCoinbase(v, b, x, s.job.value);
        assert KnowsCoinbase(v', b, x, s.job.value) == KnowsCoinbase(v, b, x, s.job.value);
      }
    }
  }

  // ---------------------------------------------------------------- theorems over whole runs

  ghost predicate Init(t: Table) {
    t == Table(0, seq(JOBS, _ => Slot(None, false, NoFlags(), false)), [])
  }

  ghost predicate IsRun(states: seq<Table>, steps: seq<Step>) {
    && |states| == |steps| + 1
    && Init(states[0])
    && forall i :: 0 <= i < |steps| ==>
         Enabled(states[i], steps[i]) && (Shape(states[i]) ==> states[i + 1] == Apply(states[i], steps[i]))
  }

  /** At every point of a session the pool could make sense of the share it had just got. */
  ghost predicate SessionUnderstood(stream: seq<Message>) {
    forall k :: 0 <= k < |stream| ==> Understood(Replay(stream[..k + 1]), stream[k])
  }

  lemma {:induction false} UnderstoodAppend(stream: seq<Message>, m: Message)
    requires SessionUnderstood(stream) && Understood(Replay(stream + [m]), m)
    ensures SessionUnderstood(stream + [m])
  {
    var all := stream + [m];
    forall k | 0 <= k < |all| ensures Understood(Replay(all[..k + 1]), all[k]) {
      if k < |stream| {
        assert all[..k + 1] == stream[..k + 1];
      } else {
        assert all[..k + 1] == all;
      }
    }
  }

  /** Over every run of job changes, reconnects and shares, each share's message carries or comes after the
      branches and the coinbase it needs, and the latest ones sent for its slot are those of the job the
      slot holds. */
  lemma {:induction false} EveryShareIsUnderstood(states: seq<Table>, steps: seq<Step>, n: nat)
    requires IsRun(states, steps) && n < |states|
    ensures Inv(states[n]) && SessionUnderstood(states[n].stream)
  {
    if n > 0 {
      EveryShareIsUnderstood(states, steps, n - 1);
      var t, step := states[n - 1], steps[n - 1];
      assert states[n] == Apply(t, step);
      match step
      case Assign(job) => AssignInv(t, job);
      case Reconnect => ReconnectInv(t);
      case Share(p) =>
        SubmitInv(t, p);
        var t' := Submit(t, p);
        if t' != t {
          UnderstoodAppend(t.stream, t'.stream[|t.stream|]);
        }
    }
  }

  /** Exactly one message is sent for a share if its slot holds a job, unless it is a subsidy-only one with an
      id that stands for nothing; 0xFF is the id that jobs of a new block are announced with. */
  predicate Sendable(t: Table, p: Pow)
    requires p.slot < |t.slots|
  {
    t.slots[p.slot].job.Some? && !(p.subsidyOnly && 7 < p.coinbaseId && p.coinbaseId != 255)
  }

  lemma {:induction false} ShareSentIff(t: Table, p: Pow)
    requires Shape(t) && Enabled(t, Share(p))
    ensures var t' := Submit(t, p);
            if !Sendable(t, p) then t' == t else
              && |t'.stream| == |t.stream| + 1 && t'.stream[..|t.stream|] == t.stream
              && t'.next == t.next && |t'.slots| == |t.slots|
              && (forall a :: 0 <= a < |t.slots| ==> t'.slots[a].job == t.slots[a].job)
              && var m := t'.stream[|t.stream|];
              && m.slot == p.slot && t.slots[p.slot].job == Some(m.job)
              && (if p.subsidyOnly then m.which == SubsidyOnly else m.which == Type(p.coinbaseId))
  {
  }

  /** And it carries no more than that: a section is sent exactly when the pool does not have it. */
  lemma {:induction false} SendsExactlyWhatIsMissing(t: Table, p: Pow)
    requires Inv(t) && Enabled(t, Share(p)) && Sendable(t, p)
    ensures var v, job := Replay(t.stream), t.slots[p.slot].job.value;
            var w := if p.subsidyOnly then SubsidyOnly else Type(p.coinbaseId);
            var sections := Submit(t, p).stream[|t.stream|].sections;
            && (Merkle(job) in sections <==> !KnowsMerkle(v, p.slot, job))
            && (Coinb(w, job) in sections <==> !KnowsCoinbase(v, p.slot, w, job))
            && (forall s :: s in sections ==> s == Merkle(job) || s == Coinb(w, job)) && |sections| <= 2
            && (|sections| == 2 ==> sections == [Merkle(job), Coinb(w, job)])
  {
    var w := p.Coinbase();
    assert FlagsRight(Replay(t.stream), p.slot, t.slots[p.slot]);
    assert HasCoinbase(t.slots[p.slot], w) <==> KnowsCoinbase(Replay(t.stream), p.slot, w, t.slots[p.slot].job.value);
  }

  // ---------------------------------------------------------------- the job a share was made for

  /** The jobs set up by steps m to n - 1. */
  function Assigned(steps: seq<Step>, m: nat, n: nat): nat
    requires m <= n <= |steps|
    decreases n - m
  {
    if m == n then 0 else Assigned(steps, m, n - 1) + if steps[n - 1].Assign? then 1 else 0
  }

  /** No job is set up twice. */
  ghost predicate Distinct(steps: seq<Step>) {
    forall i, j :: 0 <= i < j < |steps| && steps[i].Assign? && steps[j].Assign? ==> steps[i].job != steps[j].job
  }

  /** The slot that step m filled holds that job still, if fewer than eight were set up since; otherwise it
      holds a later one. */
  ghost predicate Holder(steps: seq<Step>, t: Table, m: nat, n: nat, a: nat)
    requires m < n <= |steps| && steps[m].Assign?
  {
    && Shape(t) && a < JOBS
    && var c := Assigned(steps, m + 1, n);
    && t.next == (a + 1 + c) % JOBS
    && if c < JOBS then t.slots[a].job == Some(steps[m].job)
       else exists k :: m < k < n && steps[k].Assign? && t.slots[a].job == Some(steps[k].job)
  }

  lemma {:induction false} HolderStep(steps: seq<Step>, t: Table, m: nat, n: nat, a: nat)
    requires m < n < |steps| && steps[m].Assign? && Holder(steps, t, m, n, a) && Enabled(t, steps[n])
    ensures Holder(steps, Apply(t, steps[n]), m, n + 1, a)
  {
    var t' := Apply(t, steps[n]);
    if steps[n].Assign? {
      if t.next == a {
        assert t'.slots[a].job == Some(steps[n].job);
      } else {
        assert t'.slots[a] == t.slots[a];
      }
    } else {
      assert t'.slots[a].job == t.slots[a].job;
    }
  }

  lemma {:induction false} HolderInRun(states: seq<Table>, steps: seq<Step>, m: nat, n: nat)
    requires IsRun(states, steps) && m < n < |states| && steps[m].Assign?
    ensures Holder(steps, states[n], m, n, states[m].next)
    decreases n
  {
    EveryShareIsUnderstood(states, steps, n - 1);
    assert states[n] == Apply(states[n - 1], steps[n - 1]);
    if n > m + 1 {
      HolderInRun(states, steps, m, n - 1);
      HolderStep(steps, states[n - 1], m, n - 1, states[m].next);
    }
  }

  /** A share carries the slot of the job it was made for, and waits in a queue. When it is sent it stands
      for that job exactly if fewer than eight jobs were set up in between; after that the pool takes it
      for a share of a later one. */
  lemma {:induction false} ShareNamesItsJobIff(states: seq<Table>, steps: seq<Step>, m: nat, n: nat)
    requires IsRun(states, steps) && Distinct(steps) && m < n < |steps|
    requires steps[m].Assign? && steps[n].Share? && steps[n].p.slot == states[m].next
    requires !(steps[n].p.subsidyOnly && 7 < steps[n].p.coinbaseId && steps[n].p.coinbaseId != 255)
    ensures |states[n + 1].stream| == |states[n].stream| + 1
    ensures states[n + 1].stream[|states[n].stream|].job == steps[m].job <==> Assigned(steps, m + 1, n) < 8
  {
    HolderInRun(states, steps, m, n);
    assert states[n + 1] == Submit(states[n], steps[n].p);
  }

  // ---------------------------------------------------------------- the code

  /** datum_jobs and datum_protocol_next_job_idx. */
  class JobTable {
    const jobs: array<Slot>
    var nextIdx: nat
    var stream: seq<Message>  // what datum_protocol_mining_cmd was given in this session

    ghost function View(): Table
      reads this, jobs
    {
      Table(nextIdx, jobs[..], stream)
    }

    constructor ()
      ensures fresh(jobs) && Init(View())
    {
      jobs := new Slot[JOBS](_ => Slot(None, false, NoFlags(), false));
      nextIdx, stream := 0, [];
      new;
      assert jobs[..] == seq(JOBS, _ => Slot(None, false, NoFlags(), false));
    }

    method SetupNewJobIdx(job: Job) returns (a: nat)
      requires Shape(View())
      modifies this`nextIdx, jobs
      ensures View() == NewJob(old(View()), job) && a == old(nextIdx)
    {
      a := nextIdx;
      nextIdx := nextIdx + 1;
      if nextIdx >= JOBS {
        nextIdx := 0;
      }
      jobs[a] := Slot(Some(job), false, NoFlags(), false);
    }

    /** The flags are cleared slot by slot; the jobs stay. */
    method StartSession()
      requires Shape(View())
      modifies this`stream, jobs
      ensures View() == Reconnected(old(View()))
    {
      ghost var before := jobs[..];
      var i := 0;
      while i < jobs.Length
        invariant i <= jobs.Length
        invariant forall k :: 0 <= k < i ==> jobs[k] == Cleared(before[k])
        invariant forall k :: i <= k < jobs.Length ==> jobs[k] == before[k]
      {
        jobs[i] := Slot(jobs[i].job, false, NoFlags(), false);
        i := i + 1;
      }
      stream := [];
      assert jobs[..] == Reconnected(old(View())).slots;
    }

    method SubmitPow(p: Pow)
      requires Shape(View()) && p.slot < JOBS && (!p.subsidyOnly ==> p.coinbaseId < COINBASES)
      modifies this`stream, jobs
      ensures View() == Submit(old(View()), p)
    {
      if p.coinbaseId > 7 && !(p.coinbaseId == 0xFF) && p.subsidyOnly {
        return;
      }
      var s := jobs[p.slot];
      if s.job.None? {
        return;
      }
      var job, sections := s.job.value, [];
      if !s.hasMerkle {
        sections := sections + [Merkle(job)];
        s := s.(hasMerkle := true);
      }
      if p.subsidyOnly {
        if !s.hasEmpty {
          sections := sections + [Coinb(SubsidyOnly, job)];
          s := s.(hasEmpty := true);
        }
      } else {
        if !s.hasCoinbase[p.coinbaseId] {
          sections := sections + [Coinb(Type(p.coinbaseId), job)];
          s := s.(hasCoinbase := s.hasCoinbase[p.coinbaseId := true]);
        }
      }
      assert sections == SectionsFor(old(jobs[p.slot]), job, p.Coinbase());
      FlagStays(old(jobs[p.slot]).(hasMerkle := true), p.Coinbase());
      jobs[p.slot] := s;
      stream := stream + [Message(p.slot, p.Coinbase(), sections, job)];
    }
  }

  lemma {:induction false} FlagStays(s: Slot, w: Which)
    requires w.Type? ==> w.id < |s.hasCoinbase|
    ensures HasCoinbase(s, w) ==> WithCoinbase(s, w) == s
  {
  }
}
