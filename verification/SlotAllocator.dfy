/** How connections get a thread and a slot, and give them back (datum_sockets.c, datum_sockets.h). */
module SlotAllocator {

  /** The parts of T_DATUM_CLIENT_DATA that belong to the allocator; a free slot has no descriptor. */
  datatype Slot = Slot(fd: nat, isNew: bool, inBuf: nat, outBuf: nat)

  /** T_DATUM_THREAD_DATA. */
  datatype Worker = Worker(active: bool, slots: seq<Slot>, connected: int, next: nat)

  datatype Limits = Limits(maxThreads: nat, maxClientsThread: nat, maxClients: nat)

  const NO_CLIENT := Slot(0, false, 0, 0)

  predicate Free(s: Slot) {
    s.fd == 0
  }

  function Busy(slots: seq<Slot>): nat {
    if slots == [] then 0 else (if Free(slots[0]) then 0 else 1) + Busy(slots[1..])
  }

  // ---------------------------------------------------------------- one thread

  /** connected_clients counts the occupied slots; unless all are occupied, next_open_client_index is
      a free one. */
  ghost predicate WorkerOk(w: Worker) {
    && w.connected == Busy(w.slots) && w.next < |w.slots|
    && (w.connected < |w.slots| ==> Free(w.slots[w.next]))
    && (w.connected == |w.slots| ==> w.next == |w.slots| - 1)
  }

  /** How far i is from cid, going up and around. */
  function Distance(n: nat, i: nat, cid: nat): nat
    requires i < n && cid < n
  {
    if i <= cid then cid - i else cid + n - i
  }

  function After(n: nat, i: nat): nat {
    if i + 1 == n then 0 else i + 1
  }

  /** The next free slot from i on, going around up to cid; the last slot when there is none. */
  function Probe(slots: seq<Slot>, i: nat, cid: nat): (k: nat)
    requires i < |slots| && cid < |slots|
    ensures k < |slots|
    decreases Distance(|slots|, i, cid)
  {
    if i == cid then |slots| - 1
    else if Free(slots[i]) then i
    else Probe(slots, After(|slots|, i), cid)
  }

  /** A new connection takes the slot at next. */
  function Taken(w: Worker, fd: nat): Worker
    requires w.next < |w.slots|
  {
    Worker(w.active, w.slots[w.next := Slot(fd, true, 0, 0)], w.connected + 1,
           Probe(w.slots, After(|w.slots|, w.next), w.next))
  }

  /** datum_socket_thread_client_count_decrement. */
  function Released(w: Worker, cid: nat): Worker
    requires cid < |w.slots|
  {
    Worker(w.active, w.slots[cid := w.slots[cid].(fd := 0)], w.connected - 1, if cid < w.next then cid else w.next)
  }

  function Empty(n: nat): Worker {
    Worker(false, seq(n, _ => NO_CLIENT), 0, 0)
  }

  lemma {:induction false} BusyBound(slots: seq<Slot>)
    ensures Busy(slots) <= |slots|
    ensures Busy(slots) == |slots| <==> forall i :: 0 <= i < |slots| ==> !Free(slots[i])
  {
    if slots != [] {
      BusyBound(slots[1..]);
      assert forall i :: 0 <= i < |slots[1..]| ==> slots[1..][i] == slots[i + 1];
      if forall i :: 0 <= i < |slots[1..]| ==> !Free(slots[1..][i]) {
        forall i | 1 <= i < |slots| ensures !Free(slots[i]) {
          assert slots[i] == slots[1..][i - 1];
        }
      }
    }
  }

  lemma {:induction false} BusyUpdate(slots: seq<Slot>, i: nat, s: Slot)
    requires i < |slots|
    ensures Busy(slots[i := s]) + (if Free(slots[i]) then 0 else 1) == Busy(slots) + if Free(s) then 0 else 1
  {
    if i == 0 {
      assert slots[i := s][1..] == slots[1..];
    } else {
      BusyUpdate(slots[1..], i - 1, s);
      assert slots[i := s][1..] == slots[1..][i - 1 := s];
    }
  }

  /** No slot between these distances from cid is free. */
  ghost predicate NoneFree(slots: seq<Slot>, near: nat, far: nat, cid: nat)
    requires cid < |slots|
  {
    forall j :: 0 <= j < |slots| && near < Distance(|slots|, j, cid) <= far ==> !Free(slots[j])
  }

  /** The probe ends at a free slot other than cid, unless all others are occupied. */
  lemma {:induction false} ProbeFinds(slots: seq<Slot>, i: nat, cid: nat)
    requires i < |slots| && cid < |slots|
    ensures var k := Probe(slots, i, cid);
            || (k != cid && Free(slots[k]) && Distance(|slots|, k, cid) <= Distance(|slots|, i, cid)
                && NoneFree(slots, Distance(|slots|, k, cid), Distance(|slots|, i, cid), cid))
            || (k == |slots| - 1 && NoneFree(slots, 0, Distance(|slots|, i, cid), cid))
    decreases Distance(|slots|, i, cid)
  {
    if i != cid && !Free(slots[i]) {
      ProbeFinds(slots, After(|slots|, i), cid);
    }
  }

  /** Taking a slot keeps the worker right, and gives the client a slot nobody has. */
  lemma TakenOk(w: Worker, fd: nat)
    requires WorkerOk(w) && w.connected < |w.slots| && fd > 0
    ensures WorkerOk(Taken(w, fd)) && Free(w.slots[w.next])
    ensures Taken(w, fd).slots == w.slots[w.next := Slot(fd, true, 0, 0)]
  {
    var n, cid, w' := |w.slots|, w.next, Taken(w, fd);
    BusyUpdate(w.slots, cid, Slot(fd, true, 0, 0));
    BusyBound(w'.slots);
    ProbeFinds(w.slots, After(n, cid), cid);
    var k := w'.next;
    if w'.connected < n {
      var j :| 0 <= j < n && Free(w'.slots[j]);
      assert j != cid && Free(w.slots[j]) && 0 < Distance(n, j, cid) <= Distance(n, After(n, cid), cid);
      assert k != cid && Free(w.slots[k]);
    } else {
      assert !Free(w'.slots[k]);
    }
  }

  lemma ReleasedOk(w: Worker, cid: nat)
    requires WorkerOk(w) && cid < |w.slots| && !Free(w.slots[cid])
    ensures WorkerOk(Released(w, cid))
    ensures var w' := Released(w, cid);
            && w'.active == w.active && w'.connected == w.connected - 1 && |w'.slots| == |w.slots|
            && Free(w'.slots[cid]) && forall i :: 0 <= i < |w.slots| && i != cid ==> w'.slots[i] == w.slots[i]
  {
    BusyUpdate(w.slots, cid, w.slots[cid].(fd := 0));
    BusyBound(w.slots);
    BusyBound(w.slots[cid := w.slots[cid].(fd := 0)]);
  }

  lemma {:induction false} EmptyBusy(slots: seq<Slot>)
    requires forall i :: 0 <= i < |slots| ==> Free(slots[i])
    ensures Busy(slots) == 0
  {
    if slots != [] {
      EmptyBusy(slots[1..]);
    }
  }

  lemma EmptyOk(n: nat)
    requires n > 0
    ensures WorkerOk(Empty(n))
  {
    EmptyBusy(Empty(n).slots);
  }

  // ---------------------------------------------------------------- all threads

  /** What the listener thread works on: assign_to_thread first chooses a thread, then takes a slot under
      that thread's lock; in between other threads may lose clients. */
  datatype App = App(limits: Limits, workers: seq<Worker>, activeThreads: nat, chosen: Chosen)

  datatype Chosen = Nobody | Client(tid: nat, fd: nat)

  datatype Step =
    | Choose(fd: nat, started: bool)  // started: what pthread_create answers, if it is called
    | Take
    | Release(tid: nat, cid: nat)

  function Total(workers: seq<Worker>): int {
    if workers == [] then 0 else workers[0].connected + Total(workers[1..])
  }

  /** The first thread that was never launched. */
  function FirstInactive(workers: seq<Worker>, i: nat): (r: nat)
    requires i <= |workers|
    ensures i <= r <= |workers|
    decreases |workers| - i
  {
    if i == |workers| || !workers[i].active then i else FirstInactive(workers, i + 1)
  }

  /** The first of the threads with the fewest clients, or the number of threads if all are full. */
  function Least(workers: seq<Worker>, n: nat, max: nat): (r: nat)
    requires n <= |workers|
    ensures r <= |workers|
  {
    if n == 0 then |workers| else
    var before := Least(workers, n - 1, max);
    var j := if before == |workers| then max else workers[before].connected;
    if workers[n - 1].connected < j then n - 1 else before
  }

  /** Lines 413 to 474: launch a thread that was never launched, or else pick a launched one. */
  function Chose(app: App, fd: nat, started: bool): App {
    var l := app.limits;
    if app.activeThreads < l.maxThreads then
      var tid := FirstInactive(app.workers, 0);
      if tid == |app.workers| then app else
      var launched := app.workers[tid := Empty(l.maxClientsThread).(active := true)];
      if !started then app.(workers := launched)
      else app.(workers := launched, activeThreads := app.activeThreads + 1, chosen := Client(tid, fd))
    else
      var tid := Least(app.workers, |app.workers|, l.maxClientsThread);
      if tid == |app.workers| || Total(app.workers) >= l.maxClients then app else app.(chosen := Client(tid, fd))
  }

  ghost predicate Sized(app: App) {
    && |app.workers| == app.limits.maxThreads && app.limits.maxClientsThread >= 1
    && (forall t :: 0 <= t < |app.workers| ==>
          |app.workers[t].slots| == app.limits.maxClientsThread && app.workers[t].next < app.limits.maxClientsThread)
    && (app.chosen.Client? ==> app.chosen.tid < |app.workers| && app.chosen.fd > 0)
  }

  ghost predicate Enabled(app: App, step: Step) {
    match step
    case Choose(fd, _) => app.chosen == Nobody && fd > 0
    case Take => app.chosen.Client?
    case Release(tid, cid) =>
      tid < |app.workers| && cid < |app.workers[tid].slots| && !Free(app.workers[tid].slots[cid])
  }

  ghost function Apply(app: App, step: Step): App
    requires Sized(app) && Enabled(app, step)
  {
    match step
    case Choose(fd, started) => Chose(app, fd, started)
    case Take =>
      var Client(tid, fd) := app.chosen;
      app.(workers := app.workers[tid := Taken(app.workers[tid], fd)], chosen := Nobody)
    case Release(tid, cid) => app.(workers := app.workers[tid := Released(app.workers[tid], cid)])
  }

  function Ceiling(l: Limits): nat {
    if l.maxClients > l.maxThreads then l.maxClients else l.maxThreads
  }

  /** Until all threads were launched, each has at most the client it was launched for. */
  ghost predicate Launching(app: App) {
    && (forall t :: 0 <= t < |app.workers| ==> app.workers[t].connected <= 1)
    && (forall t :: 0 <= t < |app.workers| && !app.workers[t].active ==> app.workers[t].connected == 0)
    && (app.chosen.Client? && app.chosen.tid < |app.workers| ==>
          app.workers[app.chosen.tid].connected == 0 && app.workers[app.chosen.tid].active)
  }

  ghost predicate Inv(app: App) {
    && Sized(app)
    && app.activeThreads <= app.limits.maxThreads
    && (forall t :: 0 <= t < |app.workers| ==> WorkerOk(app.workers[t]))
    && (app.chosen.Client? ==> app.workers[app.chosen.tid].connected < app.limits.maxClientsThread)
    && (Launching(app) || (app.activeThreads == app.limits.maxThreads
                           && Total(app.workers) + (if app.chosen.Client? then 1 else 0) <= Ceiling(app.limits)))
  }

  ghost predicate Init(app: App) {
    && app.limits.maxClientsThread >= 1 && app.activeThreads == 0 && app.chosen == Nobody
    && app.workers == seq(app.limits.maxThreads, _ => Empty(app.limits.maxClientsThread))
  }

  lemma {:induction false} TotalUpdate(workers: seq<Worker>, t: nat, w: Worker)
    requires t < |workers|
    ensures Total(workers[t := w]) == Total(workers) - workers[t].connected + w.connected
  {
    if t == 0 {
      assert workers[t := w][1..] == workers[1..];
    } else {
      TotalUpdate(workers[1..], t - 1, w);
      assert workers[t := w][1..] == workers[1..][t - 1 := w];
    }
  }

  lemma {:induction false} TotalAtMostOneEach(workers: seq<Worker>)
    requires forall t :: 0 <= t < |workers| ==> workers[t].connected <= 1
    ensures Total(workers) <= |workers|
  {
    if workers != [] {
      TotalAtMostOneEach(workers[1..]);
    }
  }

  lemma {:induction false} LeastIsLeast(workers: seq<Worker>, n: nat, max: nat)
    requires n <= |workers|
    ensures var r := Least(workers, n, max);
            if r == |workers| then forall t :: 0 <= t < n ==> workers[t].connected >= max
            else
              && r < n && workers[r].connected < max
              && (forall t :: 0 <= t < n ==> workers[r].connected <= workers[t].connected)
              && forall t :: 0 <= t < r ==> workers[r].connected < workers[t].connected
  {
    if n > 0 {
      LeastIsLeast(workers, n - 1, max);
    }
  }

  lemma {:induction false} FirstInactiveIsFirst(workers: seq<Worker>, i: nat)
    requires i <= |workers|
    ensures var r := FirstInactive(workers, i);
            && (r < |workers| ==> !workers[r].active)
            && (forall t :: i <= t < r ==> workers[t].active)
    decreases |workers| - i
  {
    if i < |workers| && workers[i].active {
      FirstInactiveIsFirst(workers, i + 1);
    }
  }

  // ---------------------------------------------------------------- steps keep the invariant

  lemma InitInv(app: App)
    requires Init(app)
    ensures Inv(app)
  {
    EmptyOk(app.limits.maxClientsThread);
  }

  lemma ChooseInv(app: App, fd: nat, started: bool)
    requires Inv(app) && Enabled(app, Choose(fd, started))
    ensures Inv(Chose(app, fd, started))
  {
    EmptyOk(app.limits.maxClientsThread);
    FirstInactiveIsFirst(app.workers, 0);
    LeastIsLeast(app.workers, |app.workers|, app.limits.maxClientsThread);
    var app' := Chose(app, fd, started);
    if app.activeThreads < app.limits.maxThreads {
      assert Launching(app) && Launching(app');
    }
  }

  lemma TakeInv(app: App)
    requires Inv(app) && Enabled(app, Take)
    ensures Inv(Apply(app, Take))
  {
    var Client(tid, fd) := app.chosen;
    TakenOk(app.workers[tid], fd);
    TotalUpdate(app.workers, tid, Taken(app.workers[tid], fd));
  }

  lemma ReleaseInv(app: App, tid: nat, cid: nat)
    requires Inv(app) && Enabled(app, Release(tid, cid))
    ensures Inv(Apply(app, Release(tid, cid)))
  {
    var w := app.workers[tid];
    ReleasedOk(w, cid);
    BusyUpdate(w.slots, cid, w.slots[cid].(fd := 0));
    TotalUpdate(app.workers, tid, Released(w, cid));
  }

  lemma StepInv(app: App, step: Step)
    requires Inv(app) && Enabled(app, step)
    ensures Inv(Apply(app, step))
  {
    match step
    case Choose(fd, started) => ChooseInv(app, fd, started);
    case Take => TakeInv(app);
    case Release(tid, cid) => ReleaseInv(app, tid, cid);
  }

  // ---------------------------------------------------------------- theorems

  ghost predicate IsRun(states: seq<App>, steps: seq<Step>) {
    && |states| == |steps| + 1
    && Init(states[0])
    && forall i :: 0 <= i < |steps| ==>
         Enabled(states[i], steps[i]) && (Sized(states[i]) ==> states[i + 1] == Apply(states[i], steps[i]))
  }

  lemma {:induction false} RunInv(states: seq<App>, steps: seq<Step>, n: nat)
    requires IsRun(states, steps) && n < |states|
    ensures Inv(states[n])
  {
    if n == 0 {
      InitInv(states[0]);
    } else {
      RunInv(states, steps, n - 1);
      StepInv(states[n - 1], steps[n - 1]);
    }
  }

  /** In every run a thread that was chosen has a free slot at next when its lock is taken, so neither the
      test for a full thread nor the search for a lost slot ever does anything; the new client gets a
      slot of its own and no other slot changes. */
  lemma RecoveryIsDead(states: seq<App>, steps: seq<Step>, n: nat)
    requires IsRun(states, steps) && n < |steps| && steps[n] == Take
    ensures Inv(states[n])
    ensures var w, w' := states[n].workers[states[n].chosen.tid], states[n + 1].workers[states[n].chosen.tid];
            && w.connected < |w.slots| && Free(w.slots[w.next])
            && |w'.slots| == |w.slots| && !Free(w'.slots[w.next])
            && (forall i :: 0 <= i < |w.slots| && i != w.next ==> w'.slots[i] == w.slots[i])
            && (forall t :: 0 <= t < |states[n].workers| && t != states[n].chosen.tid ==>
                  t < |states[n + 1].workers| && states[n + 1].workers[t] == states[n].workers[t])
  {
    RunInv(states, steps, n);
    assert states[n + 1] == Apply(states[n], steps[n]);
    var Client(tid, fd) := states[n].chosen;
    TakenOk(states[n].workers[tid], fd);
  }

  /** The clients of all threads together never exceed the configured maximum, or the number of threads
      where that is larger: the first connections are spread without looking at the maximum. */
  lemma NeverTooManyClients(states: seq<App>, steps: seq<Step>, n: nat)
    requires IsRun(states, steps) && n < |states|
    ensures Total(states[n].workers) <= Ceiling(states[n].limits)
  {
    RunInv(states, steps, n);
    if Launching(states[n]) {
      TotalAtMostOneEach(states[n].workers);
    }
  }

  // ---------------------------------------------------------------- who is turned away

  ghost predicate AllMarked(app: App) {
    forall t :: 0 <= t < |app.workers| ==> app.workers[t].active
  }

  ghost predicate AllFull(app: App) {
    forall t :: 0 <= t < |app.workers| ==> app.workers[t].connected == |app.workers[t].slots|
  }

  /** A connection is turned away, while the threads counted are too few, exactly when its launch fails or
      no thread is left unmarked; after that, exactly when all threads are full or the total has reached
      the maximum. */
  lemma TurnedAwayIff(app: App, fd: nat, started: bool)
    requires Inv(app) && Enabled(app, Choose(fd, started))
    ensures Chose(app, fd, started).chosen == Nobody
       <==> if app.activeThreads < app.limits.maxThreads then !started || AllMarked(app)
            else AllFull(app) || Total(app.workers) >= app.limits.maxClients
  {
    FirstInactiveIsFirst(app.workers, 0);
    LeastIsLeast(app.workers, |app.workers|, app.limits.maxClientsThread);
    forall t | 0 <= t < |app.workers| ensures app.workers[t].connected <= |app.workers[t].slots| {
      BusyBound(app.workers[t].slots);
    }
  }

  /** Who serves a connection that is accepted: while threads are launched, the first one never marked, which
      starts empty; after that the first of those with the fewest clients, which has room. No other thread
      changes. */
  lemma ChosenThread(app: App, fd: nat, started: bool)
    requires Inv(app) && Enabled(app, Choose(fd, started)) && Chose(app, fd, started).chosen.Client?
    ensures var app', tid := Chose(app, fd, started), Chose(app, fd, started).chosen.tid;
            && app'.chosen.fd == fd && tid < |app.workers| == |app'.workers|
            && (forall t :: 0 <= t < |app.workers| && t != tid ==> app'.workers[t] == app.workers[t])
            && if app.activeThreads < app.limits.maxThreads then
                 && !app.workers[tid].active && (forall t :: 0 <= t < tid ==> app.workers[t].active)
                 && app'.workers[tid].active && app'.workers[tid].connected == 0
                 && |app'.workers[tid].slots| == app.limits.maxClientsThread
                 && (forall i :: 0 <= i < app.limits.maxClientsThread ==> app'.workers[tid].slots[i] == Slot(0, false, 0, 0))
                 && app'.activeThreads == app.activeThreads + 1
               else
                 && app'.workers == app.workers && app.workers[tid].connected < app.limits.maxClientsThread
                 && (forall t :: 0 <= t < |app.workers| ==> app.workers[tid].connected <= app.workers[t].connected)
                 && (forall t :: 0 <= t < tid ==> app.workers[tid].connected < app.workers[t].connected)
  {
    FirstInactiveIsFirst(app.workers, 0);
    LeastIsLeast(app.workers, |app.workers|, app.limits.maxClientsThread);
  }

  /** pthread_create is called and fails. */
  ghost predicate LaunchFails(app: App, step: Step) {
    && step.Choose? && !step.started && app.activeThreads < app.limits.maxThreads
    && FirstInactive(app.workers, 0) < |app.workers|
  }

  /** The failed launches among the first n steps. */
  ghost function Failures(states: seq<App>, steps: seq<Step>, n: nat): nat
    requires n <= |steps| <= |states|
  {
    if n == 0 then 0 else Failures(states, steps, n - 1) + if LaunchFails(states[n - 1], steps[n - 1]) then 1 else 0
  }

  function Marked(workers: seq<Worker>): nat {
    if workers == [] then 0 else (if workers[0].active then 1 else 0) + Marked(workers[1..])
  }

  lemma {:induction false} MarkedUpdate(workers: seq<Worker>, t: nat, w: Worker)
    requires t < |workers|
    ensures Marked(workers[t := w]) + (if workers[t].active then 1 else 0) == Marked(workers) + if w.active then 1 else 0
  {
    if t == 0 {
      assert workers[t := w][1..] == workers[1..];
    } else {
      MarkedUpdate(workers[1..], t - 1, w);
      assert workers[t := w][1..] == workers[1..][t - 1 := w];
    }
  }

  lemma {:induction false} MarkedBound(workers: seq<Worker>)
    ensures Marked(workers) <= |workers|
    ensures Marked(workers) == |workers| <==> forall t :: 0 <= t < |workers| ==> workers[t].active
  {
    if workers != [] {
      MarkedBound(workers[1..]);
      assert forall t :: 0 <= t < |workers[1..]| ==> workers[1..][t] == workers[t + 1];
      if forall t :: 0 <= t < |workers[1..]| ==> workers[1..][t].active {
        forall t | 1 <= t < |workers| ensures workers[t].active {
          assert workers[t] == workers[1..][t - 1];
        }
      }
    }
  }

  lemma {:induction false} NoneMarked(workers: seq<Worker>)
    requires forall t :: 0 <= t < |workers| ==> !workers[t].active
    ensures Marked(workers) == 0
  {
    if workers != [] {
      NoneMarked(workers[1..]);
    }
  }

  lemma LaunchStep(app: App, step: Step)
    requires Inv(app) && Enabled(app, step)
    ensures var app' := Apply(app, step);
            app'.activeThreads - app.activeThreads + (if LaunchFails(app, step) then 1 else 0)
            == Marked(app'.workers) - Marked(app.workers)
  {
    match step
    case Choose(_, _) =>
      FirstInactiveIsFirst(app.workers, 0);
      var tid := FirstInactive(app.workers, 0);
      if tid < |app.workers| {
        MarkedUpdate(app.workers, tid, Empty(app.limits.maxClientsThread).(active := true));
      }
    case Take => MarkedUpdate(app.workers, app.chosen.tid, Taken(app.workers[app.chosen.tid], app.chosen.fd));
    case Release(tid, cid) => MarkedUpdate(app.workers, tid, Released(app.workers[tid], cid));
  }

  /** In every run the threads marked active are those counted and those whose launch failed. */
  lemma {:induction false} LaunchesAddUp(states: seq<App>, steps: seq<Step>, n: nat)
    requires IsRun(states, steps) && n < |states|
    ensures states[n].activeThreads + Failures(states, steps, n) == Marked(states[n].workers)
    ensures |states[n].workers| == states[n].limits.maxThreads && states[n].limits == states[0].limits
  {
    RunInv(states, steps, n);
    if n == 0 {
      NoneMarked(states[0].workers);
    } else {
      RunInv(states, steps, n - 1);
      LaunchesAddUp(states, steps, n - 1);
      LaunchStep(states[n - 1], steps[n - 1]);
    }
  }

  /** All threads are marked active, but fewer were counted. */
  ghost predicate Stuck(app: App) {
    app.activeThreads < app.limits.maxThreads && app.chosen == Nobody && AllMarked(app)
  }

  /** A run at rest is stuck exactly when all threads are marked and any launch failed, be it the first,
      the last or one between. */
  lemma StuckIffALaunchFailed(states: seq<App>, steps: seq<Step>, n: nat)
    requires IsRun(states, steps) && n < |states| && states[n].chosen == Nobody
    ensures Stuck(states[n]) <==> AllMarked(states[n]) && Failures(states, steps, n) > 0
  {
    LaunchesAddUp(states, steps, n);
    MarkedBound(states[n].workers);
  }

  /** Over every run: until all threads are marked, a connection is turned away exactly when its own launch
      fails; from then on exactly when any launch has failed, or all threads are full, or the total has
      reached the maximum. */
  lemma TurnedAwayInRun(states: seq<App>, steps: seq<Step>, n: nat)
    requires IsRun(states, steps) && n < |steps| && steps[n].Choose?
    ensures states[n + 1].chosen == Nobody
       <==> if !AllMarked(states[n]) then !steps[n].started
            else Failures(states, steps, n) > 0 || AllFull(states[n])
                 || Total(states[n].workers) >= states[n].limits.maxClients
  {
    RunInv(states, steps, n);
    LaunchesAddUp(states, steps, n);
    MarkedBound(states[n].workers);
    TurnedAwayIff(states[n], steps[n].fd, steps[n].started);
  }

  lemma FailedLaunchIsFinal(app: App, step: Step)
    requires Inv(app) && Stuck(app) && Enabled(app, step)
    ensures Stuck(Apply(app, step)) && (step.Choose? ==> Apply(app, step) == app)
  {
    FirstInactiveIsFirst(app.workers, 0);
  }

  /** Once stuck, a run stays so whatever clients leave, and nobody is ever accepted. */
  lemma {:induction false} StuckForever(states: seq<App>, steps: seq<Step>, n: nat, m: nat)
    requires IsRun(states, steps) && n <= m < |states| && Stuck(states[n])
    ensures Stuck(states[m])
    ensures forall k :: n <= k < m ==> steps[k] != Take
  {
    if n < m {
      StuckForever(states, steps, n, m - 1);
      RunInv(states, steps, m - 1);
      FailedLaunchIsFinal(states[m - 1], steps[m - 1]);
    }
  }

  lemma TotalOfTwo(workers: seq<Worker>)
    requires |workers| == 2
    ensures Total(workers) == workers[0].connected + workers[1].connected
  {
    assert Total(workers[1..]) == workers[1].connected + Total(workers[1..][1..]);
    assert workers[1..][1..] == [];
  }

  /** Two threads: the first launch fails, the second succeeds and its client is served; then no
      connection is accepted, with a thread that has room. */
  lemma {:induction false} EarlyFailureGetsStuck()
    ensures exists states: seq<App>, steps: seq<Step> ::
              && IsRun(states, steps) && |steps| == 3 && steps[1] == Choose(6, true) && steps[2] == Take
              && Stuck(states[3]) && !AllFull(states[3]) && Total(states[3].workers) < states[3].limits.maxClients
  {
    var s0 := App(Limits(2, 2, 4), seq(2, _ => Empty(2)), 0, Nobody);
    InitInv(s0);
    assert FirstInactive(s0.workers, 0) == 0;
    var s1 := Chose(s0, 5, false);
    ChooseInv(s0, 5, false);
    assert s1.workers[0].active && !s1.workers[1].active;
    assert FirstInactive(s1.workers, 0) == FirstInactive(s1.workers, 1) == 1;
    var s2 := Chose(s1, 6, true);
    ChooseInv(s1, 6, true);
    var s3 := Apply(s2, Take);
    TakeInv(s2);
    TotalOfTwo(s3.workers);
    var states, steps := [s0, s1, s2, s3], [Choose(5, false), Choose(6, true), Take];
    assert IsRun(states, steps);
    assert Stuck(states[3]);
  }
}
