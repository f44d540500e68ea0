/** assign_to_thread and its release half on the memory of a socket application (datum_sockets.c,
    datum_sockets.h). SlotAllocator says what they guarantee over whole runs. */
module ClientSlots {
  import opened SlotAllocator

  class SocketApp {
    const limits: Limits
    const workers: array<Worker>
    var activeThreads: nat

    ghost function View(): App
      reads this, workers
    {
      App(limits, workers[..], activeThreads, Nobody)
    }

    ghost predicate Valid()
      reads this, workers
    {
      workers.Length == limits.maxThreads && Inv(View())
    }

    constructor (l: Limits)
      requires l.maxClientsThread >= 1
      ensures Valid() && limits == l && fresh(workers) && SlotAllocator.Init(View())
    {
      limits := l;
      workers := new Worker[l.maxThreads](_ => Empty(l.maxClientsThread));
      activeThreads := 0;
      new;
      assert workers[..] == seq(l.maxThreads, _ => Empty(l.maxClientsThread));
      InitInv(View());
    }

    /** clean_thread_data, and the marking of the thread as active. */
    method CleanThreadData(tid: nat)
      requires tid < workers.Length && |workers[tid].slots| == limits.maxClientsThread
      modifies workers
      ensures workers[..] == old(workers[..])[tid := Empty(limits.maxClientsThread).(active := true)]
    {
      var slots := workers[tid].slots;
      var i := 0;
      while i < limits.maxClientsThread
        invariant i <= |slots| == limits.maxClientsThread
        invariant forall j :: 0 <= j < i ==> slots[j] == NO_CLIENT
      {
        slots := slots[i := NO_CLIENT];
        i := i + 1;
      }
      assert slots == Empty(limits.maxClientsThread).slots;
      workers[tid] := Worker(true, slots, 0, 0);
    }

    /** Lines 413 to 474: -1 when the connection is turned away. */
    method ChooseThread(fd: nat, started: bool) returns (tid: int)
      requires Valid() && fd > 0
      modifies this`activeThreads, workers
      ensures Chose(old(View()), fd, started)
           == View().(chosen := if tid < 0 then Nobody else Client(tid, fd))
    {
      tid := -1;
      if activeThreads < limits.maxThreads {
        tid := FindInactive();
        if tid == -1 {
          return;
        }
        CleanThreadData(tid);
        if !started {
          tid := -1;
          return;
        }
        activeThreads := activeThreads + 1;
      } else {
        var total;
        tid, total := FindLeast();
        if total >= limits.maxClients {
          tid := -1;
        }
      }
    }

    method FindInactive() returns (tid: int)
      ensures tid == if FirstInactive(workers[..], 0) == workers.Length then -1 else FirstInactive(workers[..], 0)
    {
      var i := 0;
      while i < workers.Length
        invariant i <= workers.Length && FirstInactive(workers[..], i) == FirstInactive(workers[..], 0)
      {
        if !workers[i].active {
          return i;
        }
        i := i + 1;
      }
      tid := -1;
    }

    /** The thread with the fewest clients, and the clients of all threads. */
    method FindLeast() returns (tid: int, total: int)
      ensures var r := Least(workers[..], workers.Length, limits.maxClientsThread);
              tid == if r == workers.Length then -1 else r
      ensures total == Total(workers[..])
    {
      var j: int := limits.maxClientsThread;
      tid, total := -1, 0;
      var i := 0;
      while i < workers.Length
        invariant i <= workers.Length
        invariant var r := Least(workers[..], i, limits.maxClientsThread);
                  if tid == -1 then r == workers.Length && j == limits.maxClientsThread
                  else tid == r < workers.Length && j == workers[r].connected
        invariant total + Total(workers[i..]) == Total(workers[..])
      {
        if workers[i].connected < j {
          j := workers[i].connected;
          tid := i;
        }
        assert workers[i..][1..] == workers[i + 1..];
        total := total + workers[i].connected;
        i := i + 1;
      }
    }

    /** Lines 476 to 551, under the thread's lock. The search for a lost slot is dead, and not written out. */
    method TakeSlot(tid: nat, fd: nat) returns (ok: bool)
      requires tid < workers.Length && WorkerOk(workers[tid]) && workers[tid].connected < |workers[tid].slots|
      requires |workers[tid].slots| == limits.maxClientsThread
      modifies workers
      ensures ok && workers[..] == old(workers[..])[tid := Taken(old(workers[tid]), fd)]
    {
      var w := workers[tid];
      var max := limits.maxClientsThread;
      if w.connected >= max {
        return false;
      }
      var cid := w.next;
      if w.slots[cid].fd != 0 {
        assert false;
        return false;
      }
      var next := cid + 1;
      if next == max {
        next := 0;
      }
      var i := next;
      while i != cid
        invariant i < max && next < max
        invariant Probe(w.slots, i, cid) == Probe(w.slots, After(max, cid), cid)
        decreases Distance(max, i, cid)
      {
        if w.slots[i].fd == 0 {
          next := i;
          break;
        }
        i := i + 1;
        if i >= max {
          i := 0;
        }
      }
      if i == cid {
        next := max - 1;
      }
      workers[tid] := Worker(w.active, w.slots[cid := Slot(fd, true, 0, 0)], w.connected + 1, next);
      ok := true;
    }

    /** assign_to_thread with no release in between. */
    method AssignToThread(fd: nat, started: bool) returns (ok: bool)
      requires Valid() && fd > 0
      modifies this`activeThreads, workers
      ensures Valid()
      ensures var chosen := Chose(old(View()), fd, started);
              && ok == chosen.chosen.Client?
              && View() == if ok then Apply(chosen, Take) else chosen
    {
      ghost var before := View();
      ChooseInv(before, fd, started);
      var tid := ChooseThread(fd, started);
      if tid < 0 {
        return false;
      }
      ghost var chosen := View().(chosen := Client(tid, fd));
      assert Enabled(chosen, Take);
      TakeInv(chosen);
      ok := TakeSlot(tid, fd);
      assert View() == Apply(chosen, Take);
    }

    /** datum_socket_thread_client_count_decrement, for a client that is connected. */
    method ClientLeft(tid: nat, cid: nat)
      requires Valid() && Enabled(View(), Release(tid, cid))
      modifies workers
      ensures Valid() && View() == Apply(old(View()), Release(tid, cid))
    {
      ReleaseInv(View(), tid, cid);
      ghost var before := workers[..];
      var w := workers[tid];
      var next := if cid < w.next then cid else w.next;
      workers[tid] := Worker(w.active, w.slots[cid := w.slots[cid].(fd := 0)], w.connected - 1, next);
      assert workers[..] == before[tid := Released(w, cid)];
    }
  }
}
