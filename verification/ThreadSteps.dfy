/** Every entry point of the thread library keeps the invariant. */
module ThreadSteps {
  import opened ThreadModel
  import opened ThreadInvariants

  lemma HeadReady(clock: Clock, s: State, n: QueueName)
    requires Rest(clock, s) && Q(s, n) != [] && n != Runnable && CanResume(clock, s, Q(s, n)[0])
    ensures EntryOK(clock, PopFront(s, n), Runnable, Q(s, n)[0])
  {
    hide ThreadOK, MutexOK, Accounted, Domains;
    PopHead(clock, s, n);
  }

  /** Taking the head off a blocking queue and making it runnable. */
  lemma ReadyHeadKeeps(clock: Clock, s: State, n: QueueName)
    requires Rest(clock, s) && Q(s, n) != [] && n != Runnable && CanResume(clock, s, Q(s, n)[0])
    ensures Rest(clock, PushBack(PopFront(s, n), Runnable, Q(s, n)[0]))
    ensures forall u :: Queued(PushBack(PopFront(s, n), Runnable, Q(s, n)[0]), u) <==> Queued(s, u)
  {
    hide QueuesOK, EntryOK, CanResume, ThreadOK, MutexOK, Accounted, NoDuplicates;
    var head := Q(s, n)[0];
    RestQueues(clock, s);
    assert head in s.queues[n];
    PopKeeps(clock, s, n);
    PopMembers(clock, s, n);
    HeadReady(clock, s, n);
    PushMembers(PopFront(s, n), Runnable, head);
    PushKeeps(clock, PopFront(s, n), Runnable, head);
  }

  lemma SelfEntries(clock: Clock, s: State, i: ThreadInfo)
    requires Rest(clock, s) && s.current != null && s.current in s.threads && !Queued(s, s.current)
    requires i.holds == s.threads[s.current].holds
    requires forall m | m in s.mutexes && s.mutexes[m].owner == s.current ::
               m in i.holds <==> i.context != Locking(m)
    requires s.threads[s.current].dead == i.dead
    ensures var s1 := SetInfo(s, s.current, i);
            QueuesOK(clock, s1) && forall m | m in s1.mutexes :: MutexOK(s1, m)
  {
    hide ThreadOK, Accounted;
    var s1 := SetInfo(s, s.current, i);
    forall k, u | k in s1.queues && u in s1.queues[k] ensures EntryOK(clock, s1, k, u) {
      assert EntryOK(clock, s, k, u);
    }
    forall m | m in s1.mutexes ensures MutexOK(s1, m) {
      assert MutexOK(s, m);
    }
  }

  lemma SelfThreads(clock: Clock, s: State, i: ThreadInfo)
    requires Rest(clock, s) && s.current != null && s.current in s.threads && !Queued(s, s.current)
    requires !i.dead && i.waiter == s.threads[s.current].waiter && i.holds == s.threads[s.current].holds
    requires !s.threads[s.current].dead
    requires ThreadOK(SetInfo(s, s.current, i), s.current)
    requires forall u | u in s.threads && !s.threads[u].dead && s.threads[u].waiter == s.current ::
               i.context == Joining(u)
    requires forall m | m in s.mutexes && s.mutexes[m].owner == s.current ::
               m in i.holds <==> i.context != Locking(m)
    ensures var s1 := SetInfo(s, s.current, i); forall u | u in s1.threads :: ThreadOK(s1, u)
  {
    hide EntryOK, QueuesOK, MutexOK, Accounted;
    var s1 := SetInfo(s, s.current, i);
    forall u | u in s1.threads ensures ThreadOK(s1, u) {
      assert ThreadOK(s, u);
    }
  }

  /** The running thread changes its own record without exiting. */
  lemma SelfKeeps(clock: Clock, s: State, i: ThreadInfo)
    requires Rest(clock, s) && s.current != null && s.current in s.threads && !Queued(s, s.current)
    requires !i.dead && i.waiter == s.threads[s.current].waiter && i.holds == s.threads[s.current].holds
    requires !s.threads[s.current].dead
    requires ThreadOK(SetInfo(s, s.current, i), s.current)
    requires forall u | u in s.threads && !s.threads[u].dead && s.threads[u].waiter == s.current ::
               i.context == Joining(u)
    requires forall m | m in s.mutexes && s.mutexes[m].owner == s.current ::
               m in i.holds <==> i.context != Locking(m)
    ensures Rest(clock, SetInfo(s, s.current, i))
    ensures forall u :: Queued(SetInfo(s, s.current, i), u) <==> Queued(s, u)
  {
    hide QueuesOK, MutexOK, ThreadOK, Accounted;
    SelfEntries(clock, s, i);
    SelfThreads(clock, s, i);
    AccountsKeep(s, SetInfo(s, s.current, i));
  }

  /** No live thread waits for the exit of a thread and has it as its waiter unless that thread
      is inside qthread_join. */
  lemma NobodysWaiter(clock: Clock, s: State, t: QThread)
    requires Rest(clock, s) && t in s.threads
    ensures forall u | u in s.threads && !s.threads[u].dead && s.threads[u].waiter == t ::
              s.threads[t].context == Joining(u)
  {
    forall u | u in s.threads && !s.threads[u].dead && s.threads[u].waiter == t
      ensures s.threads[t].context == Joining(u)
    {
      assert ThreadOK(s, u);
    }
  }

  lemma TickKeeps(clock: Clock, s: State)
    requires Rest(clock, s)
    ensures Rest(clock, s.(ticks := s.ticks + 1))
    ensures forall u :: Queued(s.(ticks := s.ticks + 1), u) <==> Queued(s, u)
  {
    var s1 := s.(ticks := s.ticks + 1);
    forall k, u | k in s1.queues && u in s1.queues[k] ensures EntryOK(clock, s1, k, u) {
      assert EntryOK(clock, s, k, u);
    }
    forall m | m in s1.mutexes ensures MutexOK(s1, m) {
      assert MutexOK(s, m);
    }
    forall u | u in s1.threads ensures ThreadOK(s1, u) {
      assert ThreadOK(s, u);
    }
    forall u | u in s1.threads && u != s1.current ensures Accounted(s1, u) {
      assert Accounted(s, u);
    }
  }

  /** The accounts of the others do not change while no queue loses a thread, nobody else's
      context changes and nobody comes back to life. */
  lemma AccountsKeep(s: State, s1: State)
    requires s1.threads.Keys == s.threads.Keys && s1.current == s.current
    requires forall u | u in s.threads && u != s.current :: Accounted(s, u) && ThreadOK(s, u)
    requires forall u | u in s.threads && u != s.current :: s1.threads[u].context == s.threads[u].context
    requires forall u | u in s.threads :: s1.threads[u].dead == s.threads[u].dead
    requires forall u :: Queued(s, u) ==> Queued(s1, u)
    ensures forall u | u in s1.threads && u != s1.current :: Accounted(s1, u)
  {
    forall u | u in s1.threads && u != s1.current ensures Accounted(s1, u) {
      assert Accounted(s, u) && ThreadOK(s, u);
    }
  }

  // ---------------------------------------------------------------------------------------
  // One lemma for each entry point.

  function NewRecord(s: State, t: QThread, r0: int, t0: int): State {
    SetInfo(s, t, ThreadInfo(false, null, r0, t0, Ready, {}))
  }

  lemma CreateEntries(clock: Clock, s: State, t: QThread, r0: int, t0: int)
    requires Inv(clock, s) && s.current != null && Legal(s, Create(t, r0, t0))
    ensures QueuesOK(clock, NewRecord(s, t, r0, t0))
  {
    hide Accounted, MutexOK;
    var s1 := NewRecord(s, t, r0, t0);
    forall k, u | k in s1.queues && u in s1.queues[k] ensures EntryOK(clock, s1, k, u) {
      assert EntryOK(clock, s, k, u) && ThreadOK(s, u);
    }
  }

  lemma StrangerInNoQueue(clock: Clock, s: State, t: QThread)
    requires QueuesOK(clock, s) && t !in s.threads
    ensures !Queued(s, t)
  {
    forall k | k in s.queues ensures t !in s.queues[k] {
      assert t in s.queues[k] ==> EntryOK(clock, s, k, t);
    }
  }

  lemma CreateMutexes(clock: Clock, s: State, t: QThread, r0: int, t0: int)
    requires Inv(clock, s) && s.current != null && Legal(s, Create(t, r0, t0))
    ensures var s1 := NewRecord(s, t, r0, t0); forall m | m in s1.mutexes :: MutexOK(s1, m)
  {
    hide QueuesOK, EntryOK, ThreadOK, Accounted;
    var s1 := NewRecord(s, t, r0, t0);
    forall m | m in s1.mutexes ensures MutexOK(s1, m) {
      assert MutexOK(s, m);
    }
  }

  lemma CreateThreads(clock: Clock, s: State, t: QThread, r0: int, t0: int)
    requires Inv(clock, s) && s.current != null && Legal(s, Create(t, r0, t0))
    ensures var s1 := NewRecord(s, t, r0, t0); forall u | u in s1.threads :: ThreadOK(s1, u)
  {
    hide QueuesOK, EntryOK, MutexOK, Accounted;
    var s1 := NewRecord(s, t, r0, t0);
    forall u | u in s1.threads ensures ThreadOK(s1, u) {
      if u != t {
        assert ThreadOK(s, u);
      }
    }
  }

  lemma CreateAccounts(clock: Clock, s: State, t: QThread, r0: int, t0: int)
    requires Inv(clock, s) && s.current != null && Legal(s, Create(t, r0, t0))
    ensures var s1 := NewRecord(s, t, r0, t0);
            forall u | u in s1.threads && u != s1.current && u != t :: Accounted(s1, u)
  {
    hide QueuesOK, EntryOK, MutexOK;
    var s1 := NewRecord(s, t, r0, t0);
    assert s1.queues == s.queues;
    forall u ensures Queued(s1, u) <==> Queued(s, u) {}
    forall u | u in s1.threads && u != s1.current && u != t ensures Accounted(s1, u) {
      assert u in s.threads && Accounted(s, u) && ThreadOK(s, u);
    }
  }


  lemma CreateKeeps(clock: Clock, s: State, t: QThread, r0: int, t0: int)
    requires Inv(clock, s) && s.current != null && Legal(s, Create(t, r0, t0))
    ensures Inv(clock, Step(clock, s, Create(t, r0, t0)))
  {
    hide QueuesOK, MutexOK, ThreadOK, Accounted;
    var s1 := NewRecord(s, t, r0, t0);
    RestQueues(clock, s);
    StrangerInNoQueue(clock, s, t);
    CreateEntries(clock, s, t, r0, t0);
    CreateMutexes(clock, s, t, r0, t0);
    CreateThreads(clock, s, t, r0, t0);
    CreateAccounts(clock, s, t, r0, t0);
    PushKeeps(clock, s1, Runnable, t);
    PushMembers(s1, Runnable, t);
  }

  lemma YieldKeeps(clock: Clock, s: State)
    requires Inv(clock, s) && Legal(s, Yield)
    ensures Inv(clock, Step(clock, s, Yield)) && Step(clock, s, Yield).current != null
  {
    var i := Info(s, s.current).(context := Ready);
    assert ThreadOK(s, s.current);
    NobodysWaiter(clock, s, s.current);
    assert forall m | m in s.mutexes :: MutexOK(s, m);
    SelfKeeps(clock, s, i);
    ScheduleKeeps(clock, SetContext(s, s.current, Ready), ForYield);
  }

  lemma SleepPrepares(clock: Clock, s: State, usecs: int)
    requires Inv(clock, s) && Legal(s, Usleep(usecs))
    ensures var s1 := StartSleep(clock, s, s.current, usecs); Rest(clock, s1) && MayLeave(s1, ForSleep)
  {
    hide QueuesOK, EntryOK, Accounted;
    var t := s.current;
    var s1 := StartSleep(clock, s, t, usecs);
    var s0 := s.(ticks := s.ticks + 1);
    TickKeeps(clock, s);
    assert ThreadOK(s0, t);
    NobodysWaiter(clock, s0, t);
    assert forall m | m in s0.mutexes :: MutexOK(s0, m);
    SelfKeeps(clock, s0, Info(s1, t));
    assert s1 == SetInfo(s0, t, Info(s1, t));
  }

  lemma UsleepKeeps(clock: Clock, s: State, usecs: int)
    requires Inv(clock, s) && Legal(s, Usleep(usecs))
    ensures Inv(clock, Step(clock, s, Usleep(usecs))) && Step(clock, s, Usleep(usecs)).current != null
  {
    hide Rest, StartSleep, MayLeave, Schedule;
    SleepPrepares(clock, s, usecs);
    ScheduleKeeps(clock, StartSleep(clock, s, s.current, usecs), ForSleep);
  }

  lemma TakeMutexEntries(clock: Clock, s: State, m: QMutex)
    requires Inv(clock, s) && s.current != null && m in s.mutexes && !s.mutexes[m].locked
    ensures QueuesOK(clock, TakeMutex(s, s.current, m))
    ensures forall u :: Queued(TakeMutex(s, s.current, m), u) <==> Queued(s, u)
  {
    hide ThreadOK, Accounted;
    var s1 := TakeMutex(s, s.current, m);
    assert MutexOK(s, m) && Q(s, MutexQueue(m)) == [];
    forall k, u | k in s1.queues && u in s1.queues[k] ensures EntryOK(clock, s1, k, u) {
      assert EntryOK(clock, s, k, u);
    }
  }

  lemma TakeMutexThreads(clock: Clock, s: State, m: QMutex)
    requires Inv(clock, s) && s.current != null && m in s.mutexes && !s.mutexes[m].locked
    requires s.threads[s.current].context == Running || s.threads[s.current].context.Waiting?
    ensures var s1 := TakeMutex(s, s.current, m); forall u | u in s1.threads :: ThreadOK(s1, u)
  {
    hide QueuesOK, EntryOK, Accounted, CanResume;
    var s1 := TakeMutex(s, s.current, m);
    assert MutexOK(s, m);
    forall u | u in s1.threads ensures ThreadOK(s1, u) {
      assert ThreadOK(s, u);
    }
  }

  lemma TakeMutexKeeps(clock: Clock, s: State, m: QMutex)
    requires Inv(clock, s) && s.current != null && m in s.mutexes && !s.mutexes[m].locked
    requires s.threads[s.current].context == Running || s.threads[s.current].context.Waiting?
    ensures Inv(clock, TakeMutex(s, s.current, m))
  {
    hide QueuesOK, ThreadOK, EntryOK, Accounted, CanResume;
    var s1 := TakeMutex(s, s.current, m);
    TakeMutexEntries(clock, s, m);
    TakeMutexThreads(clock, s, m);
    forall k | k in s1.mutexes ensures MutexOK(s1, k) {
      assert MutexOK(s, k);
    }
    AccountsKeep(s, s1);
  }

  /** The running thread's record as it is about to block. */
  lemma BlockedSelf(clock: Clock, s: State, x: Context)
    requires Inv(clock, s) && s.current != null
    requires s.threads[s.current].context == Running || s.threads[s.current].context.Waiting?
    requires x.Locking? || (x.Waiting? && CondQueue(x.c) in s.queues)
    requires x.m in s.mutexes && s.mutexes[x.m].owner != s.current
    ensures var s1 := SetContext(s, s.current, x);
            Rest(clock, s1) && !Queued(s1, s.current) && !s1.threads[s.current].dead
  {
    hide QueuesOK, EntryOK, Accounted;
    var i := Info(s, s.current).(context := x);
    assert ThreadOK(s, s.current);
    NobodysWaiter(clock, s, s.current);
    assert forall k | k in s.mutexes :: MutexOK(s, k);
    SelfKeeps(clock, s, i);
  }

  lemma Parks(clock: Clock, s: State, n: QueueName)
    requires Rest(clock, s) && s.current != null && s.cpu == s.current && s.current in s.threads
    requires n in s.queues && n != Runnable && !Queued(s, s.current) && EntryOK(clock, s, n, s.current)
    requires n.MutexQueue? ==> n.m in s.mutexes && s.mutexes[n.m].locked
    ensures var s1 := PushBack(s, n, s.current); Rest(clock, s1) && MayLeave(s1, ForWait)
  {
    hide EntryOK, ThreadOK, MutexOK, NoDuplicates;
    PushKeeps(clock, s, n, s.current);
    PushMembers(s, n, s.current);
  }

  lemma LockParks(clock: Clock, s: State, m: QMutex)
    requires Inv(clock, s) && s.current != null && m in s.mutexes && s.mutexes[m].locked
    requires s.mutexes[m].owner != s.current
    requires s.threads[s.current].context == Running || s.threads[s.current].context.Waiting?
    ensures var s1 := SetContext(PushBack(s, MutexQueue(m), s.current), s.current, Locking(m));
            Rest(clock, s1) && MayLeave(s1, ForWait)
  {
    hide Rest, MayLeave, PushBack, ThreadOK, MutexOK, Accounted, QueuesOK, Domains;
    var s1 := SetContext(s, s.current, Locking(m));
    BlockedSelf(clock, s, Locking(m));
    MutexQueueKnown(clock, s, m);
    Parks(clock, s1, MutexQueue(m));
    PushThenSet(s, MutexQueue(m), s.current, Locking(m));
  }

  lemma MutexQueueKnown(clock: Clock, s: State, m: QMutex)
    requires Rest(clock, s) && m in s.mutexes
    ensures MutexQueue(m) in s.queues
  {
  }

  lemma PushThenSet(s: State, n: QueueName, t: QThread, x: Context)
    ensures PushBack(SetContext(s, t, x), n, t) == SetContext(PushBack(s, n, t), t, x)
  {
  }

  lemma WaitParks(clock: Clock, s: State, c: QCond, m: QMutex)
    requires Inv(clock, s) && s.current != null && s.threads[s.current].context == Running
    requires CondQueue(c) in s.queues && m in s.mutexes && s.mutexes[m].owner != s.current
    ensures var s1 := SetContext(PushBack(s, CondQueue(c), s.current), s.current, Waiting(c, m));
            Rest(clock, s1) && MayLeave(s1, ForWait)
  {
    hide Rest, MayLeave, PushBack, ThreadOK, MutexOK, Accounted, QueuesOK, Domains;
    var s1 := SetContext(s, s.current, Waiting(c, m));
    BlockedSelf(clock, s, Waiting(c, m));
    Parks(clock, s1, CondQueue(c));
    PushThenSet(s, CondQueue(c), s.current, Waiting(c, m));
  }

  lemma LockBlocksKeeps(clock: Clock, s: State, m: QMutex)
    requires Inv(clock, s) && s.current != null && m in s.mutexes && s.mutexes[m].locked
    requires s.mutexes[m].owner != s.current
    requires s.threads[s.current].context == Running || s.threads[s.current].context.Waiting?
    ensures Inv(clock, LockMutex(clock, s, m))
  {
    hide Rest, MayLeave, Schedule;
    LockParks(clock, s, m);
    ScheduleKeeps(clock, SetContext(PushBack(s, MutexQueue(m), s.current), s.current, Locking(m)), ForWait);
  }

  lemma LockKeeps(clock: Clock, s: State, m: QMutex)
    requires Inv(clock, s) && s.current != null && m in s.mutexes && s.mutexes[m].owner != s.current
    requires s.threads[s.current].context == Running || s.threads[s.current].context.Waiting?
    ensures Inv(clock, LockMutex(clock, s, m))
  {
    if s.mutexes[m].locked {
      LockBlocksKeeps(clock, s, m);
    } else {
      TakeMutexKeeps(clock, s, m);
    }
  }

  /** A running thread that has not locked a mutex does not own it. */
  lemma NotOwner(clock: Clock, s: State, m: QMutex)
    requires Inv(clock, s) && Legal(s, Lock(m))
    ensures s.mutexes[m].owner != s.current
  {
    assert MutexOK(s, m);
  }

  ghost predicate HandsOff(clock: Clock, s: State, m: QMutex) {
    && Inv(clock, s) && s.current != null && s.threads[s.current].context == Running
    && m in s.threads[s.current].holds && Q(s, MutexQueue(m)) != []
  }

  /** The heir is blocked in locking `m`, which the running thread owns. */
  lemma HeirLocks(clock: Clock, s: State, m: QMutex)
    requires HandsOff(clock, s, m)
    ensures var heir := Q(s, MutexQueue(m))[0];
            && heir in s.threads && s.threads[heir].context == Locking(m) && heir != s.current
            && m !in s.threads[heir].holds && CanResume(clock, s, heir) == (s.mutexes[m].owner == heir)
            && m in s.mutexes && s.mutexes[m] == MutexInfo(true, s.current)
  {
    hide Accounted, NoDuplicates;
    var heir := Q(s, MutexQueue(m))[0];
    assert heir in s.queues[MutexQueue(m)] && EntryOK(clock, s, MutexQueue(m), heir);
    assert ThreadOK(s, s.current) && ThreadOK(s, heir);
    assert m in s.mutexes;
    assert MutexOK(s, m);
  }

  /** Handing a mutex on moves its heir, and changes one record and one owner. */
  lemma HandOffQueues(s: State, m: QMutex)
    requires Q(s, MutexQueue(m)) != [] && s.current != null
    ensures var q := Q(s, MutexQueue(m)); var s1 := ReleaseMutex(s, s.current, m);
            && s1.current == s.current && s1.cpu == s.cpu && s1.ticks == s.ticks
            && s1.threads == s.threads[s.current := Info(s, s.current).(holds := Info(s, s.current).holds - {m})]
            && s1.mutexes == s.mutexes[m := Mutex(s, m).(owner := q[0])]
            && s1.queues == PushBack(PopFront(s, MutexQueue(m)), Runnable, q[0]).queues
            && s.queues.Keys <= s1.queues.Keys
            && (forall n | n != Runnable && n != MutexQueue(m) :: Q(s1, n) == Q(s, n))
            && Q(s1, MutexQueue(m)) == q[1..]
  {
  }

  lemma HandOffMembers(clock: Clock, s: State, m: QMutex)
    requires HandsOff(clock, s, m)
    ensures var heir := Q(s, MutexQueue(m))[0]; var s1 := ReleaseMutex(s, s.current, m);
            && EntryOK(clock, s, MutexQueue(m), heir) && heir != s.current
            && s1.queues.Keys == s.queues.Keys
            && (forall k | k in s1.queues :: NoDuplicates(s1.queues[k]))
            && (forall k, u | k in s1.queues && u in s1.queues[k] ::
                  if u == heir then k == Runnable else u in s.queues[k])
            && (forall u :: Queued(s1, u) <==> Queued(s, u))
  {
    hide MutexOK, ThreadOK, Accounted, CanResume, CurrentOK;
    var heir := Q(s, MutexQueue(m))[0];
    var s0 := PopFront(s, MutexQueue(m));
    assert heir in s.queues[MutexQueue(m)];
    PopMembers(clock, s, MutexQueue(m));
    PushMembers(s0, Runnable, heir);
    assert ReleaseMutex(s, s.current, m).queues == PushBack(s0, Runnable, heir).queues;
    assert NoDuplicates(s.queues[Runnable]) && heir !in s0.queues[Runnable];
  }

  lemma HandOffEntry(clock: Clock, s: State, m: QMutex, k: QueueName, u: QThread)
    requires HandsOff(clock, s, m) && Q(s, MutexQueue(m))[0] != u
    requires k in s.queues && u in s.queues[k] && u != s.current
    ensures EntryOK(clock, ReleaseMutex(s, s.current, m), k, u)
  {
    hide QueuesOK, ThreadOK, MutexOK, Accounted, ReleaseMutex, PushBack, PopFront, Domains;
    HandOffQueues(s, m);
    HeirLocks(clock, s, m);
    OneEntry(clock, s, k, u);
  }

  lemma OneEntry(clock: Clock, s: State, k: QueueName, u: QThread)
    requires QueuesOK(clock, s) && k in s.queues && u in s.queues[k]
    ensures EntryOK(clock, s, k, u)
  {
    hide EntryOK;
  }

  /** The heir may run: it owns the mutex it was waiting for. */
  lemma HeirReady(clock: Clock, s: State, m: QMutex)
    requires HandsOff(clock, s, m)
    ensures EntryOK(clock, ReleaseMutex(s, s.current, m), Runnable, Q(s, MutexQueue(m))[0])
  {
    hide ThreadOK, MutexOK, Accounted, ReleaseMutex, PushBack, PopFront, Domains, NoDuplicates;
    var heir := Q(s, MutexQueue(m))[0];
    HandOffQueues(s, m);
    HeirLocks(clock, s, m);
    assert heir in s.queues[MutexQueue(m)] && EntryOK(clock, s, MutexQueue(m), heir);
  }

  lemma HandOffEntries(clock: Clock, s: State, m: QMutex)
    requires HandsOff(clock, s, m)
    ensures QueuesOK(clock, ReleaseMutex(s, s.current, m))
  {
    hide EntryOK, ThreadOK, MutexOK, Accounted, ReleaseMutex, NoDuplicates, Domains;
    var heir := Q(s, MutexQueue(m))[0];
    var s1 := ReleaseMutex(s, s.current, m);
    HandOffMembers(clock, s, m);
    HeirReady(clock, s, m);
    forall k, u | k in s1.queues && u in s1.queues[k] ensures EntryOK(clock, s1, k, u) {
      if u != heir {
        assert u in s.queues[k] && u != s.current;
        HandOffEntry(clock, s, m, k, u);
      }
    }
  }

  lemma HandOffMutexes(clock: Clock, s: State, m: QMutex)
    requires HandsOff(clock, s, m)
    ensures var s1 := ReleaseMutex(s, s.current, m);
            forall k | k in s1.mutexes :: MutexOK(s1, k)
  {
    hide QueuesOK, EntryOK, ThreadOK, MutexOK, Accounted, CanResume, ReleaseMutex, Domains;
    var s1 := ReleaseMutex(s, s.current, m);
    HandOffQueues(s, m);
    HeirLocks(clock, s, m);
    forall k | k in s1.mutexes ensures MutexOK(s1, k) {
      HandOffMutex(clock, s, m, k);
    }
  }

  lemma HandOffMutex(clock: Clock, s: State, m: QMutex, k: QMutex)
    requires HandsOff(clock, s, m) && k in s.mutexes
    ensures MutexOK(ReleaseMutex(s, s.current, m), k)
  {
    hide QueuesOK, EntryOK, ThreadOK, Accounted, CanResume, ReleaseMutex, PushBack, PopFront, Domains;
    HandOffQueues(s, m);
    HeirLocks(clock, s, m);
    assert MutexOK(s, k);
  }

  lemma HandOffThread(clock: Clock, s: State, m: QMutex, u: QThread)
    requires HandsOff(clock, s, m) && u in s.threads
    ensures ThreadOK(ReleaseMutex(s, s.current, m), u)
  {
    hide QueuesOK, EntryOK, MutexOK, Accounted, CanResume, ReleaseMutex, PopFront, PushBack, NoDuplicates;
    HeirLocks(clock, s, m);
    HandOffQueues(s, m);
    assert ThreadOK(s, u);
  }

  lemma HandOffThreads(clock: Clock, s: State, m: QMutex)
    requires HandsOff(clock, s, m)
    ensures var s1 := ReleaseMutex(s, s.current, m);
            && s1.threads.Keys == s.threads.Keys
            && forall u | u in s1.threads :: ThreadOK(s1, u)
  {
    hide QueuesOK, EntryOK, MutexOK, ThreadOK, Accounted, CanResume, ReleaseMutex;
    var s1 := ReleaseMutex(s, s.current, m);
    HandOffQueues(s, m);
    forall u | u in s1.threads ensures ThreadOK(s1, u) {
      HandOffThread(clock, s, m, u);
    }
  }

  lemma HandOffKeeps(clock: Clock, s: State, m: QMutex)
    requires HandsOff(clock, s, m)
    ensures Inv(clock, ReleaseMutex(s, s.current, m))
  {
    hide QueuesOK, EntryOK, ThreadOK, MutexOK, Accounted, CanResume, NoDuplicates, PushBack, PopFront;
    HandOffQueues(s, m);
    HeirLocks(clock, s, m);
    var s1 := ReleaseMutex(s, s.current, m);
    HandOffMembers(clock, s, m);
    HandOffEntries(clock, s, m);
    HandOffMutexes(clock, s, m);
    HandOffThreads(clock, s, m);
    AccountsKeep(s, s1);
  }

  lemma ReleaseFreeState(s: State, m: QMutex)
    requires s.current != null && Q(s, MutexQueue(m)) == []
    ensures ReleaseMutex(s, s.current, m) ==
              SetInfo(s, s.current, Info(s, s.current).(holds := Info(s, s.current).holds - {m}))
                .(mutexes := s.mutexes[m := MutexInfo(false, null)])
  {
  }

  lemma ReleaseFreeEntry(clock: Clock, s: State, m: QMutex, k: QueueName, u: QThread)
    requires Inv(clock, s) && s.current != null && m in s.threads[s.current].holds
    requires Q(s, MutexQueue(m)) == [] && k in s.queues && u in s.queues[k]
    ensures EntryOK(clock, ReleaseMutex(s, s.current, m), k, u)
  {
    hide ThreadOK, MutexOK, Accounted, ReleaseMutex, QueuesOK, Domains;
    ReleaseFreeState(s, m);
    HeldOwner(clock, s, m);
    OneEntry(clock, s, k, u);
    assert u != s.current;
  }

  lemma ReleaseFreeEntries(clock: Clock, s: State, m: QMutex)
    requires Inv(clock, s) && s.current != null && m in s.threads[s.current].holds
    requires Q(s, MutexQueue(m)) == []
    ensures var s1 := ReleaseMutex(s, s.current, m);
            && m in s.mutexes && QueuesOK(clock, s1) && forall k | k in s1.mutexes :: MutexOK(s1, k)
  {
    hide EntryOK, ThreadOK, Accounted, ReleaseMutex;
    ReleaseFreeState(s, m);
    HeldOwner(clock, s, m);
    var s1 := ReleaseMutex(s, s.current, m);
    forall k, u | k in s1.queues && u in s1.queues[k] ensures EntryOK(clock, s1, k, u) {
      ReleaseFreeEntry(clock, s, m, k, u);
    }
    forall k | k in s1.mutexes ensures MutexOK(s1, k) {
      assert MutexOK(s, k);
    }
  }

  lemma ReleaseFreeThread(clock: Clock, s: State, m: QMutex, u: QThread)
    requires Inv(clock, s) && s.current != null && m in s.threads[s.current].holds
    requires Q(s, MutexQueue(m)) == [] && u in s.threads
    ensures ThreadOK(ReleaseMutex(s, s.current, m), u)
  {
    hide QueuesOK, EntryOK, MutexOK, CanResume, Accounted, ReleaseMutex, NoDuplicates;
    ReleaseFreeState(s, m);
    HeldOwner(clock, s, m);
    assert ThreadOK(s, u);
  }

  lemma ReleaseFreeThreads(clock: Clock, s: State, m: QMutex)
    requires Inv(clock, s) && s.current != null && m in s.threads[s.current].holds
    requires Q(s, MutexQueue(m)) == []
    ensures var s1 := ReleaseMutex(s, s.current, m); forall u | u in s1.threads :: ThreadOK(s1, u)
  {
    hide QueuesOK, EntryOK, MutexOK, ThreadOK, CanResume, Accounted, ReleaseMutex;
    var s1 := ReleaseMutex(s, s.current, m);
    ReleaseFreeState(s, m);
    forall u | u in s1.threads ensures ThreadOK(s1, u) {
      ReleaseFreeThread(clock, s, m, u);
    }
  }

  lemma HeldOwner(clock: Clock, s: State, m: QMutex)
    requires Inv(clock, s) && s.current != null && m in s.threads[s.current].holds
    ensures m in s.mutexes && s.mutexes[m].owner == s.current
  {
    assert ThreadOK(s, s.current);
  }

  lemma ReleaseMutexKeeps(clock: Clock, s: State, m: QMutex)
    requires Inv(clock, s) && s.current != null && m in s.threads[s.current].holds
    requires s.threads[s.current].context == Running
    ensures Inv(clock, ReleaseMutex(s, s.current, m))
  {
    hide QueuesOK, ThreadOK, MutexOK, Accounted, CanResume;
    if Q(s, MutexQueue(m)) != [] {
      HandOffKeeps(clock, s, m);
    } else {
      ReleaseFreeEntries(clock, s, m);
      ReleaseFreeThreads(clock, s, m);
      AccountsKeep(s, ReleaseMutex(s, s.current, m));
    }
  }

  lemma WaitKeeps(clock: Clock, s: State, c: QCond, m: QMutex)
    requires Inv(clock, s) && Legal(s, Wait(c, m))
    ensures Inv(clock, Step(clock, s, Wait(c, m)))
  {
    ReleaseMutexKeeps(clock, s, m);
    Released(clock, s, m);
    WaitParks(clock, ReleaseMutex(s, s.current, m), c, m);
    ScheduleKeeps(clock, StartWait(s, s.current, c, m), ForWait);
  }

  lemma Released(clock: Clock, s: State, m: QMutex)
    requires Inv(clock, s) && s.current != null && m in s.threads[s.current].holds
    requires s.threads[s.current].context == Running
    ensures var s1 := ReleaseMutex(s, s.current, m);
            && s1.current == s.current && s1.threads.Keys == s.threads.Keys
            && s1.threads[s.current].context == Running
            && s1.queues.Keys == s.queues.Keys
            && m in s1.mutexes && s1.mutexes[m].owner != s.current
  {
    assert ThreadOK(s, s.current);
    if Q(s, MutexQueue(m)) != [] {
      HandOffMembers(clock, s, m);
    }
  }

  lemma SignalKeeps(clock: Clock, s: State, c: QCond)
    requires Inv(clock, s) && s.current != null
    ensures Inv(clock, SignalCond(s, c))
  {
    if Q(s, CondQueue(c)) != [] {
      var head := Q(s, CondQueue(c))[0];
      assert head in s.queues[CondQueue(c)];
      assert EntryOK(clock, s, CondQueue(c), head) && ThreadOK(s, head);
      ReadyHeadKeeps(clock, s, CondQueue(c));
    }
  }

  lemma {:induction false} BroadcastKeeps(clock: Clock, s: State, c: QCond)
    requires Inv(clock, s) && s.current != null
    ensures Inv(clock, BroadcastCond(s, c))
    decreases |Q(s, CondQueue(c))|
  {
    if Q(s, CondQueue(c)) != [] {
      SignalKeeps(clock, s, c);
      BroadcastKeeps(clock, SignalCond(s, c), c);
    }
  }

  function DeadRecord(s: State, v: int): State
    requires s.current != null && s.current in s.threads
  {
    SetInfo(s, s.current, s.threads[s.current].(returnVal := v, dead := true, context := Exited))
  }

  lemma DeadWaiter(clock: Clock, s: State, v: int)
    requires Inv(clock, s) && s.current != null && s.threads[s.current].context == Running
    ensures var s1 := DeadRecord(s, v); var w := s.threads[s.current].waiter;
            w != null ==> w in s.threads && w != s.current && !Queued(s1, w) && EntryOK(clock, s1, Runnable, w)
  {
    hide MutexOK, Accounted, NoDuplicates;
    var w := s.threads[s.current].waiter;
    assert ThreadOK(s, s.current);
    if w != null {
      assert ThreadOK(s, w);
      forall k | k in s.queues ensures w !in s.queues[k] {
        assert w in s.queues[k] ==> EntryOK(clock, s, k, w);
      }
    }
  }

  lemma DeadEntries(clock: Clock, s: State, v: int)
    requires Inv(clock, s) && s.current != null && s.threads[s.current].context == Running
    ensures var s1 := DeadRecord(s, v);
            && QueuesOK(clock, s1) && (forall k | k in s1.mutexes :: MutexOK(s1, k))
            && (forall u :: Queued(s1, u) <==> Queued(s, u))
  {
    hide Accounted;
    var s1 := DeadRecord(s, v);
    assert ThreadOK(s, s.current);
    forall k, u | k in s1.queues && u in s1.queues[k] ensures EntryOK(clock, s1, k, u) {
      assert EntryOK(clock, s, k, u);
    }
    forall k | k in s1.mutexes ensures MutexOK(s1, k) {
      assert MutexOK(s, k);
    }
  }

  lemma DeadThreads(clock: Clock, s: State, v: int)
    requires Inv(clock, s) && s.current != null && s.threads[s.current].context == Running
    ensures var s1 := DeadRecord(s, v); forall u | u in s1.threads :: ThreadOK(s1, u)
  {
    hide QueuesOK, EntryOK, CanResume, MutexOK, Accounted;
    var s1 := DeadRecord(s, v);
    forall u | u in s1.threads ensures ThreadOK(s1, u) {
      assert ThreadOK(s, u) && ThreadOK(s, s.current);
    }
  }

  /** The exiting thread's record, before its joiner is woken. */
  lemma DeadKeeps(clock: Clock, s: State, v: int)
    requires Inv(clock, s) && s.current != null && s.threads[s.current].context == Running
    ensures var t := s.current; var w := s.threads[t].waiter; var s1 := DeadRecord(s, v);
            && RestBut(clock, s1, if w == null then {} else {w})
            && (w != null ==> w in s.threads && w != t && !Queued(s1, w) && EntryOK(clock, s1, Runnable, w))
  {
    hide QueuesOK, EntryOK, CanResume, MutexOK, ThreadOK;
    var t := s.current;
    var w := s.threads[t].waiter;
    var s1 := DeadRecord(s, v);
    DeadEntries(clock, s, v);
    DeadWaiter(clock, s, v);
    DeadThreads(clock, s, v);
    forall u | u in s1.threads && u != t && u != w ensures Accounted(s1, u) {
      assert Accounted(s, u);
      OneThread(clock, s, u);
    }
  }

  lemma OneThread(clock: Clock, s: State, u: QThread)
    requires Rest(clock, s) && u in s.threads
    ensures s.threads[u].context.Joining? ==>
              s.threads[u].context.target in s.threads
              && (Info(s, s.threads[u].context.target).dead || Info(s, s.threads[u].context.target).waiter == u)
  {
    assert ThreadOK(s, u);
  }

  lemma ExitKeeps(clock: Clock, s: State, v: int)
    requires Inv(clock, s) && Legal(s, Exit(v))
    ensures Inv(clock, Step(clock, s, Exit(v)))
  {
    var t := s.current;
    var w := s.threads[t].waiter;
    var s1 := SetInfo(s, t, s.threads[t].(returnVal := v, dead := true, context := Exited));
    DeadKeeps(clock, s, v);
    if w != null {
      PushKeeps(clock, s1, Runnable, w);
    }
    ScheduleKeeps(clock, MarkExited(s, t, v), ForExit);
  }

  ghost predicate JoinsLive(clock: Clock, s: State, target: QThread) {
    Inv(clock, s) && Legal(s, Join(target)) && !s.threads[target].dead
  }

  /** The joiner's record and the target's `waiter` change together. */
  function JoinRecords(s: State, target: QThread): State
    requires s.current != null
  {
    SetContext(SetWaiter(s, target, s.current), s.current, Joining(target))
  }

  lemma JoinEntry(clock: Clock, s: State, target: QThread, k: QueueName, u: QThread)
    requires JoinsLive(clock, s, target) && k in s.queues && u in s.queues[k]
    ensures EntryOK(clock, JoinRecords(s, target), k, u)
  {
    hide QueuesOK, MutexOK, ThreadOK, Accounted, Domains;
    OneEntry(clock, s, k, u);
    assert u != s.current;
  }

  lemma JoinMutexes(clock: Clock, s: State, target: QThread)
    requires JoinsLive(clock, s, target)
    ensures var s1 := JoinRecords(s, target); forall k | k in s1.mutexes :: MutexOK(s1, k)
  {
    hide QueuesOK, EntryOK, ThreadOK, Accounted;
    var s1 := JoinRecords(s, target);
    forall k | k in s1.mutexes ensures MutexOK(s1, k) {
      assert MutexOK(s, k);
    }
  }

  lemma JoinEntries(clock: Clock, s: State, target: QThread)
    requires JoinsLive(clock, s, target)
    ensures var s1 := JoinRecords(s, target);
            && QueuesOK(clock, s1)
            && forall k | k in s1.mutexes :: MutexOK(s1, k)
  {
    hide EntryOK, MutexOK, ThreadOK, Accounted, NoDuplicates;
    var s1 := JoinRecords(s, target);
    JoinMutexes(clock, s, target);
    assert s1.queues == s.queues;
    forall k, u | k in s1.queues && u in s1.queues[k] ensures EntryOK(clock, s1, k, u) {
      JoinEntry(clock, s, target, k, u);
    }
  }

  lemma JoinThread(clock: Clock, s: State, target: QThread, u: QThread)
    requires JoinsLive(clock, s, target) && u in s.threads
    ensures ThreadOK(JoinRecords(s, target), u)
  {
    hide EntryOK, QueuesOK, MutexOK, CanResume, Accounted, NoDuplicates;
    NobodysWaiter(clock, s, s.current);
    assert ThreadOK(s, u);
  }

  lemma JoinThreads(clock: Clock, s: State, target: QThread)
    requires JoinsLive(clock, s, target)
    ensures var s1 := JoinRecords(s, target); forall u | u in s1.threads :: ThreadOK(s1, u)
  {
    hide EntryOK, QueuesOK, MutexOK, ThreadOK, CanResume, Accounted;
    var s1 := JoinRecords(s, target);
    forall u | u in s1.threads ensures ThreadOK(s1, u) {
      JoinThread(clock, s, target, u);
    }
  }

  lemma JoinBlocks(clock: Clock, s: State, target: QThread)
    requires JoinsLive(clock, s, target)
    ensures Rest(clock, JoinRecords(s, target)) && MayLeave(JoinRecords(s, target), ForWait)
  {
    hide EntryOK, QueuesOK, MutexOK, ThreadOK, CanResume, Accounted;
    JoinEntries(clock, s, target);
    JoinThreads(clock, s, target);
    AccountsKeep(s, JoinRecords(s, target));
    JoinerAccounted(s, target);
  }

  lemma JoinerAccounted(s: State, target: QThread)
    requires s.current != null && s.current in s.threads && target in s.threads
    requires target != s.current && !s.threads[target].dead
    ensures Accounted(JoinRecords(s, target), s.current)
  {
  }

  lemma JoinDeadEntries(clock: Clock, s: State, target: QThread)
    requires Inv(clock, s) && Legal(s, Join(target)) && s.threads[target].dead
    ensures var s1 := Step(clock, s, Join(target));
            && s1 == SetWaiter(s, target, s.current)
            && QueuesOK(clock, s1) && (forall k | k in s1.mutexes :: MutexOK(s1, k))
  {
    hide ThreadOK, Accounted;
    var s1 := Step(clock, s, Join(target));
    assert s1.threads == s.threads[target := s.threads[target].(waiter := s.current)];
    forall k, u | k in s1.queues && u in s1.queues[k] ensures EntryOK(clock, s1, k, u) {
      assert EntryOK(clock, s, k, u);
    }
    forall k | k in s1.mutexes ensures MutexOK(s1, k) {
      assert MutexOK(s, k);
    }
  }

  lemma JoinDeadThreads(clock: Clock, s: State, target: QThread)
    requires Inv(clock, s) && Legal(s, Join(target)) && s.threads[target].dead
    ensures var s1 := SetWaiter(s, target, s.current); forall u | u in s1.threads :: ThreadOK(s1, u)
  {
    hide QueuesOK, EntryOK, MutexOK, Accounted;
    var s1 := SetWaiter(s, target, s.current);
    forall u | u in s1.threads ensures ThreadOK(s1, u) {
      assert ThreadOK(s, u);
    }
  }

  lemma JoinKeeps(clock: Clock, s: State, target: QThread)
    requires Inv(clock, s) && Legal(s, Join(target))
    ensures Inv(clock, Step(clock, s, Join(target)))
  {
    hide Rest, Schedule, Step;
    var t := s.current;
    if s.threads[target].dead {
      JoinDeadKeeps(clock, s, target);
    } else {
      JoinBlocks(clock, s, target);
      ScheduleKeeps(clock, JoinRecords(s, target), ForWait);
      JoinLives(clock, s, target);
    }
  }

  lemma JoinDeadKeeps(clock: Clock, s: State, target: QThread)
    requires Inv(clock, s) && Legal(s, Join(target)) && s.threads[target].dead
    ensures Inv(clock, Step(clock, s, Join(target)))
  {
    hide QueuesOK, ThreadOK, MutexOK, Accounted, Step;
    JoinDeadEntries(clock, s, target);
    JoinDeadThreads(clock, s, target);
    AccountsKeep(s, SetWaiter(s, target, s.current));
  }

  lemma JoinLives(clock: Clock, s: State, target: QThread)
    requires s.current != null && Legal(s, Join(target)) && !s.threads[target].dead
    ensures Step(clock, s, Join(target)) == Schedule(clock, JoinRecords(s, target), ForWait)
  {
  }

  lemma ReturnEntries(clock: Clock, s: State, m: QMutex)
    requires Inv(clock, s) && s.current != null && s.threads[s.current].context == Locking(m)
    ensures var s1 := ResumeThread(clock, s);
            && QueuesOK(clock, s1) && (forall k | k in s1.mutexes :: MutexOK(s1, k))
            && s1 == SetInfo(s, s.current, Info(s, s.current).(context := Running, holds := Info(s, s.current).holds + {m}))
  {
    hide Accounted;
    var s1 := ResumeThread(clock, s);
    assert ThreadOK(s, s.current);
    forall k, u | k in s1.queues && u in s1.queues[k] ensures EntryOK(clock, s1, k, u) {
      assert EntryOK(clock, s, k, u);
    }
    forall k | k in s1.mutexes ensures MutexOK(s1, k) {
      assert MutexOK(s, k);
    }
  }

  lemma ReturnThreads(clock: Clock, s: State, m: QMutex)
    requires Inv(clock, s) && s.current != null && s.threads[s.current].context == Locking(m)
    ensures var s1 := SetInfo(s, s.current, Info(s, s.current).(context := Running, holds := Info(s, s.current).holds + {m}));
            forall u | u in s1.threads :: ThreadOK(s1, u)
  {
    hide QueuesOK, EntryOK, MutexOK, Accounted;
    var t := s.current;
    var s1 := SetInfo(s, t, Info(s, t).(context := Running, holds := Info(s, t).holds + {m}));
    assert ThreadOK(s, t);
    forall u | u in s1.threads ensures ThreadOK(s1, u) {
      assert ThreadOK(s, u);
    }
  }

  lemma ReturnFromLockKeeps(clock: Clock, s: State, m: QMutex)
    requires Inv(clock, s) && s.current != null && s.threads[s.current].context == Locking(m)
    ensures Inv(clock, ResumeThread(clock, s))
  {
    hide QueuesOK, ThreadOK, MutexOK, Accounted, ResumeThread;
    ReturnEntries(clock, s, m);
    ReturnThreads(clock, s, m);
    AccountsKeep(s, ResumeThread(clock, s));
  }

  lemma GoesOnKeeps(clock: Clock, s: State)
    requires Inv(clock, s) && Legal(s, Resume)
    requires !s.threads[s.current].context.Locking? && !s.threads[s.current].context.Waiting?
    ensures Inv(clock, Step(clock, s, Resume))
  {
    hide QueuesOK, EntryOK, Accounted;
    var t := s.current;
    var i := Info(s, t).(context := Running);
    assert ThreadOK(s, t);
    NobodysWaiter(clock, s, t);
    assert forall k | k in s.mutexes :: MutexOK(s, k);
    SelfKeeps(clock, s, i);
  }

  lemma ResumeKeeps(clock: Clock, s: State)
    requires Inv(clock, s) && Legal(s, Resume)
    ensures Inv(clock, Step(clock, s, Resume))
  {
    hide QueuesOK, MutexOK, Accounted, LockMutex;
    assert ThreadOK(s, s.current);
    var context := s.threads[s.current].context;
    if context.Locking? {
      ReturnFromLockKeeps(clock, s, context.m);
    } else if context.Waiting? {
      LockKeeps(clock, s, context.m);
    } else {
      GoesOnKeeps(clock, s);
    }
  }

  /** The state with a new, free mutex. */
  function WithMutex(s: State, m: QMutex): State {
    s.(mutexes := s.mutexes[m := MutexInfo(false, null)], queues := s.queues[MutexQueue(m) := []])
  }

  lemma NewMutexEntry(clock: Clock, s: State, m: QMutex, k: QueueName, u: QThread)
    requires Inv(clock, s) && s.current != null && Legal(s, NewMutex(m)) && k in s.queues && u in s.queues[k]
    ensures EntryOK(clock, WithMutex(s, m), k, u)
  {
    hide QueuesOK, MutexOK, Accounted;
    OneEntry(clock, s, k, u);
    assert ThreadOK(s, u);
  }

  lemma NewMutexEntries(clock: Clock, s: State, m: QMutex)
    requires Inv(clock, s) && s.current != null && Legal(s, NewMutex(m))
    ensures var s1 := WithMutex(s, m);
            QueuesOK(clock, s1) && forall u :: Queued(s1, u) <==> Queued(s, u)
  {
    hide EntryOK, ThreadOK, MutexOK, Accounted;
    var s1 := WithMutex(s, m);
    NewQueueMembers(s, s1, MutexQueue(m));
    forall k, u | k in s1.queues && u in s1.queues[k] ensures EntryOK(clock, s1, k, u) {
      NewMutexEntry(clock, s, m, k, u);
    }
  }

  lemma NewMutexMutexes(clock: Clock, s: State, m: QMutex)
    requires Inv(clock, s) && s.current != null && Legal(s, NewMutex(m))
    ensures var s1 := WithMutex(s, m); Domains(s1) && forall k | k in s1.mutexes :: MutexOK(s1, k)
  {
    hide QueuesOK, EntryOK, ThreadOK, Accounted;
    var s1 := WithMutex(s, m);
    forall k | k in s1.mutexes ensures MutexOK(s1, k) {
      assert k != m ==> MutexOK(s, k);
    }
  }

  lemma NewMutexThreads(clock: Clock, s: State, m: QMutex)
    requires Inv(clock, s) && s.current != null && Legal(s, NewMutex(m))
    ensures var s1 := WithMutex(s, m); forall u | u in s1.threads :: ThreadOK(s1, u)
    ensures CurrentOK(clock, s) && ThreadOK(s, s.current)
  {
    hide QueuesOK, EntryOK, MutexOK, Accounted, CurrentOK;
    var s1 := WithMutex(s, m);
    forall u | u in s1.threads ensures ThreadOK(s1, u) {
      assert ThreadOK(s, u);
    }
  }

  lemma NewMutexKeeps(clock: Clock, s: State, m: QMutex)
    requires Inv(clock, s) && Legal(s, NewMutex(m))
    ensures Inv(clock, Step(clock, s, NewMutex(m)))
  {
    hide Domains, QueuesOK, EntryOK, MutexOK;
    var s1 := WithMutex(s, m);
    NewMutexEntries(clock, s, m);
    NewMutexMutexes(clock, s, m);
    NewMutexThreads(clock, s, m);
    forall u | u in s1.threads && u != s1.current ensures Accounted(s1, u) {
      assert Accounted(s, u);
    }
  }

  lemma NewCondEntries(clock: Clock, s: State, c: QCond)
    requires Inv(clock, s) && Legal(s, NewCond(c))
    ensures var s1 := s.(queues := s.queues[CondQueue(c) := []]);
            && QueuesOK(clock, s1) && (forall k | k in s1.mutexes :: MutexOK(s1, k))
            && (forall u :: Queued(s1, u) <==> Queued(s, u))
  {
    hide ThreadOK, Accounted;
    var s1 := s.(queues := s.queues[CondQueue(c) := []]);
    NewQueueMembers(s, s1, CondQueue(c));
    forall k, u | k in s1.queues && u in s1.queues[k] ensures EntryOK(clock, s1, k, u) {
      assert EntryOK(clock, s, k, u);
    }
    forall k | k in s1.mutexes ensures MutexOK(s1, k) {
      assert MutexOK(s, k);
    }
  }

  lemma NewCondThreads(clock: Clock, s: State, c: QCond)
    requires Inv(clock, s) && Legal(s, NewCond(c))
    ensures var s1 := s.(queues := s.queues[CondQueue(c) := []]); forall u | u in s1.threads :: ThreadOK(s1, u)
  {
    hide QueuesOK, EntryOK, MutexOK, Accounted;
    var s1 := s.(queues := s.queues[CondQueue(c) := []]);
    forall u | u in s1.threads ensures ThreadOK(s1, u) {
      assert ThreadOK(s, u);
    }
  }

  lemma NewCondKeeps(clock: Clock, s: State, c: QCond)
    requires Inv(clock, s) && Legal(s, NewCond(c))
    ensures Inv(clock, Step(clock, s, NewCond(c)))
  {
    hide QueuesOK, EntryOK, MutexOK, ThreadOK, Queued, CanResume;
    var s1 := Step(clock, s, NewCond(c));
    assert s1 == s.(queues := s.queues[CondQueue(c) := []]);
    NewCondEntries(clock, s, c);
    NewCondThreads(clock, s, c);
    SameResumes(clock, s, s1);
    forall u | u in s1.threads && u != s1.current ensures Accounted(s1, u) {
      assert Accounted(s, u);
    }
  }

  /** A queue more or less lets nobody go on. */
  lemma SameResumes(clock: Clock, s: State, s1: State)
    requires s1 == s.(queues := s1.queues)
    ensures forall u :: CanResume(clock, s1, u) <==> CanResume(clock, s, u)
  {
  }

  lemma NewQueueMembers(s: State, s1: State, n: QueueName)
    requires n !in s.queues && s1.queues == s.queues[n := []]
    ensures forall u :: Queued(s1, u) <==> Queued(s, u)
  {
    forall u | Queued(s, u) ensures Queued(s1, u) {
      var k :| k in s.queues && u in s.queues[k];
      assert u in s1.queues[k];
    }
  }

  // ---------------------------------------------------------------------------------------

  /** Every call of every entry point keeps the invariant. */
  lemma StepKeeps(clock: Clock, s: State, op: Op)
    requires Inv(clock, s) && Legal(s, op)
    ensures Inv(clock, Step(clock, s, op))
  {
    match op
    case Create(t, r0, t0) => CreateKeeps(clock, s, t, r0, t0);
    case NewMutex(m) => NewMutexKeeps(clock, s, m);
    case NewCond(c) => NewCondKeeps(clock, s, c);
    case Yield => YieldKeeps(clock, s);
    case Exit(v) => ExitKeeps(clock, s, v);
    case Join(target) => JoinKeeps(clock, s, target);
    case Usleep(usecs) => UsleepKeeps(clock, s, usecs);
    case Lock(m) =>
      NotOwner(clock, s, m);
      LockKeeps(clock, s, m);
    case Unlock(m) => ReleaseMutexKeeps(clock, s, m);
    case Wait(c, m) => WaitKeeps(clock, s, c, m);
    case Signal(c) => SignalKeeps(clock, s, c);
    case Broadcast(c) => BroadcastKeeps(clock, s, c);
    case Resume => ResumeKeeps(clock, s);
  }

  lemma InitHolds(clock: Clock, main: QThread, returnVal0: int, timing0: int)
    ensures Inv(clock, Init(main, returnVal0, timing0))
  {
    var s := Init(main, returnVal0, timing0);
    assert ThreadOK(s, main);
  }

  lemma {:induction false} RunKeeps(clock: Clock, s: State, ops: seq<Op>)
    requires Inv(clock, s) && LegalRun(clock, s, ops)
    ensures Inv(clock, Exec(clock, s, ops))
    decreases |ops|
  {
    if ops != [] {
      StepKeeps(clock, s, ops[0]);
      RunKeeps(clock, Step(clock, s, ops[0]), ops[1..]);
    }
  }
}
