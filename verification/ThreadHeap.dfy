/** The thread library over its linked queues.  All queues thread through the one `next` field of
    a thread, so each method works only because a thread is never in two of them; every method is
    proved to do to the structures what its step in ThreadModel does to the sequences. */
module ThreadHeap {
  import opened ThreadModel
  import opened ThreadInvariants
  import opened ThreadSteps
  import opened ThreadRuns
  import opened Wrappers

  /** No thread is in two queues, and the queues hold known threads only. */
  ghost predicate Separate(queues: map<QueueName, seq<QThread>>, threads: set<QThread>) {
    && Runnable in queues && Sleeping in queues
    && (forall n, t | n in queues && t in queues[n] :: t in threads)
    && (forall n1, n2, t | n1 in queues && n2 in queues && t in queues[n1] && t in queues[n2] :: n1 == n2)
  }

  lemma PushSeparate(s: State, n: QueueName, t: QThread)
    requires Separate(s.queues, s.threads.Keys) && n in s.queues && t in s.threads && !Queued(s, t)
    ensures Separate(PushBack(s, n, t).queues, s.threads.Keys)
  {
    PushMembers(s, n, t);
  }

  lemma Apart(s: State, n: QueueName)
    requires Separate(s.queues, s.threads.Keys) && n in s.queues
    ensures forall k, t | k in s.queues && k != n && t in s.queues[k] :: t !in s.queues[n]
  {
  }

  lemma PopSeparate(s: State, n: QueueName)
    requires Separate(s.queues, s.threads.Keys)
    ensures Separate(PopFront(s, n).queues, s.threads.Keys)
  {
    assert forall k, u | k in s.queues && u in PopFront(s, n).queues[k] :: u in s.queues[k];
  }

  lemma InitShape(t: QThread, returnVal: int, timing: int)
    ensures var s := Init(t, returnVal, timing);
            && s.current == s.cpu == t && s.ticks == 0 && s.mutexes == map[] && s.threads.Keys == {t}
            && s.threads[t] == ThreadInfo(false, null, returnVal, timing, Running, {})
            && s.queues == map[Runnable := [], Sleeping := []] && Separate(s.queues, s.threads.Keys)
  {
  }

  lemma WakeStarts(clock: Clock, s: State)
    ensures var q := Q(s, Sleeping);
            Wake(clock, s) ==
              if q == [] then s else WakeLoop(clock, PopFront(s, Sleeping), q[0], |q| >= 2)
  {
  }

  lemma RotateFacts(s: State, head: QThread)
    requires Q(s, Sleeping) != []
    ensures Rotate(s, head).threads == s.threads && Rotate(s, head).ticks == s.ticks
    ensures Q(Rotate(s, head), Sleeping) != []
    ensures s.ticks > 0 ==>
              Rotate(s.(ticks := s.ticks - 1), head) == Rotate(s, head).(ticks := s.ticks - 1)
  {
  }

  lemma WakeContinues(clock: Clock, s: State, head: QThread, linked: bool)
    requires Info(s, head).timing > Reading(clock, s.ticks)
    ensures var s1 := s.(ticks := s.ticks + 1);
            WakeLoop(clock, s, head, linked) ==
              if linked && Q(s, Sleeping) != []
              then WakeLoop(clock, Rotate(s1, head), Q(s, Sleeping)[0], |Q(s, Sleeping)| >= 2)
              else WakeLoop(clock, s1, head, linked)
  {
  }

  lemma WakeEnds(clock: Clock, s: State, head: QThread, linked: bool)
    requires Info(s, head).timing <= Reading(clock, s.ticks)
    ensures WakeLoop(clock, s, head, linked) == PushBack(s.(ticks := s.ticks + 1), Runnable, head)
  {
  }

  // The library writes the fields of a record one after the other.

  lemma SleepWritten(clock: Clock, s: State, t: QThread, usecs: int)
    ensures var until := Reading(clock, s.ticks) + usecs; var s1 := s.(ticks := s.ticks + 1);
            && SetContext(SetInfo(s1, t, Info(s1, t).(timing := until)), t, Asleep(until))
               == StartSleep(clock, s, t, usecs)
            && (forall u :: Queued(StartSleep(clock, s, t, usecs), u) <==> Queued(s, u))
            && t in SetInfo(s1, t, Info(s1, t).(timing := until)).threads
            && t in StartSleep(clock, s, t, usecs).threads
            && (s.current == t ==>
                  && StartSleep(clock, s, t, usecs).current == t
                  && Step(clock, s, ThreadModel.Usleep(usecs))
                     == Schedule(clock, StartSleep(clock, s, t, usecs), ForSleep))
  {
  }

  lemma ExitWritten(s: State, t: QThread, v: int)
    ensures var s1 := SetContext(SetInfo(s, t, Info(s, t).(returnVal := v, dead := true)), t, Exited);
            && (forall u :: Queued(s1, u) <==> Queued(s, u))
            && MarkExited(s, t, v) ==
                 var w := Info(s, t).waiter;
                 if w != null then PushBack(s1, Runnable, w) else s1
  {
  }

  lemma TakeWritten(s: State, t: QThread, m: QMutex)
    ensures var s1 := SetContext(s.(mutexes := s.mutexes[m := MutexInfo(true, t)]), t, Running);
            SetInfo(s1, t, Info(s1, t).(holds := Info(s1, t).holds + {m})) == TakeMutex(s, t, m)
  {
  }

  lemma ReturnWritten(s: State, t: QThread, holds: set<QMutex>)
    ensures var s1 := SetContext(s, t, Running);
            SetInfo(s1, t, Info(s1, t).(holds := holds))
            == SetInfo(s, t, Info(s, t).(context := Running, holds := holds))
  {
  }

  /** The globals of the library. */
  class Library {
    const clock: Clock
    var ticks: nat
    var current: QThread?
    var cpu: QThread?
    const runnable: ThreadQ
    const sleeping: ThreadQ
    ghost var st: State

    ghost function QueueOf(n: QueueName): ThreadQ {
      match n
      case Runnable => runnable
      case Sleeping => sleeping
      case MutexQueue(m) => m.queue
      case CondQueue(c) => c.queue
    }

    ghost function Queues(queues: map<QueueName, seq<QThread>>): set<ThreadQ> {
      set n | n in queues :: QueueOf(n)
    }

    /** Every queue is a structure of its own, and each is linked as `queues` says. */
    ghost predicate QueuesLinked(queues: map<QueueName, seq<QThread>>, threads: set<QThread>)
      reads Queues(queues)`front, Queues(queues)`end, Queues(queues)`size, Queues(queues)`Contents, threads`next
    {
      && Separate(queues, threads)
      && (forall n1, n2 | n1 in queues && n2 in queues :: QueueOf(n1) == QueueOf(n2) ==> n1 == n2)
      && (forall n | n in queues :: QueueOf(n).Contents == queues[n])
      && (forall n | n in queues :: QueueOf(n).Valid())
    }

    static ghost predicate RecordOK(t: QThread, i: ThreadInfo)
      reads t`dead, t`waiter, t`returnVal, t`timing, t`context
    {
      && t.dead == i.dead && t.waiter == i.waiter && t.returnVal == i.returnVal
      && t.timing == i.timing && t.context == i.context
    }

    static ghost predicate LocksMatch(mutexes: map<QMutex, MutexInfo>)
      reads mutexes.Keys`locked
    {
      forall m | m in mutexes :: m.locked == mutexes[m].locked
    }

    /** The structures represent `st`. */
    ghost predicate Linked()
      reads this, st.threads.Keys, Queues(st.queues), st.mutexes.Keys
    {
      && current == st.current && cpu == st.cpu && ticks == st.ticks
      && QueuesLinked(st.queues, st.threads.Keys)
      && (forall t | t in st.threads :: RecordOK(t, st.threads[t]))
      && LocksMatch(st.mutexes)
    }

    ghost predicate Valid()
      reads this, st.threads.Keys, Queues(st.queues), st.mutexes.Keys
    {
      Linked() && Inv(clock, st)
    }

    /** qthread_init.  It sets neither `dead` nor `waiter` of the main thread, which are assumed to
        be found zero and NULL; the other fields hold anything. */
    constructor (clock: Clock, next: QThread?, returnVal: int, timing: int)
      ensures Valid() && fresh(current) && st == Init(current, returnVal, timing) && this.clock == clock
    {
      hide Inv, Init, ThreadQ.Valid;
      var thread := new QThread(next, false, null, returnVal, timing);
      thread.context := Running;
      this.clock := clock;
      runnable := new ThreadQ(null, null);
      sleeping := new ThreadQ(null, null);
      current, cpu, ticks := thread, thread, 0;
      st := Init(thread, returnVal, timing);
      InitHolds(clock, thread, returnVal, timing);
      InitShape(thread, returnVal, timing);
    }

    // -------------------------------------------------------------------------------------
    // The queues.

    lemma EndIsQueued(s: State, name: QueueName)
      requires QueuesLinked(s.queues, s.threads.Keys) && name in s.queues
      ensures var q := QueueOf(name);
              q.size > 0 ==> q.end != null && q.end in s.queues[name] && q.end in s.threads
    {
      assert QueueOf(name).Valid();
    }

    /** push_back writes `next` of the thread and of the old end of the queue; neither is in any
        other queue. */
    method LinkBack(ghost s: State, ghost name: QueueName, queue: ThreadQ, thread: QThread)
      requires QueuesLinked(s.queues, s.threads.Keys) && name in s.queues && queue == QueueOf(name)
      requires thread in s.threads && !Queued(s, thread)
      modifies queue, s.threads.Keys`next
      ensures QueuesLinked(PushBack(s, name, thread).queues, s.threads.Keys)
      ensures forall t | t in s.threads && t != thread && t !in s.queues[name] :: t.next == old(t.next)
    {
      hide Separate, ThreadQ.Valid;
      assert thread !in s.queues[name];
      EndIsQueued(s, name);
      Apart(s, name);
      PushSeparate(s, name, thread);
      queue.PushBack(thread);
      forall k | k in s.queues && k != name
        ensures QueueOf(k).Contents == s.queues[k] && QueueOf(k).Valid()
      {
        assert old(QueueOf(k).Valid());
        assert thread !in s.queues[k];
      }
    }

    method Push(ghost name: QueueName, queue: ThreadQ, thread: QThread)
      requires Linked() && name in st.queues && queue == QueueOf(name)
      requires thread in st.threads && !Queued(st, thread)
      modifies this`st, queue, st.threads.Keys`next
      ensures Linked() && st == PushBack(old(st), name, thread)
      ensures forall t | t in st.threads && t != thread && t !in Q(old(st), name) :: t.next == old(t.next)
    {
      hide RecordOK, LocksMatch, QueuesLinked;
      LinkBack(st, name, queue, thread);
      st := PushBack(st, name, thread);
    }

    /** pop_front writes no thread: the popped one keeps its `next`. */
    method Unlink(ghost s: State, ghost name: QueueName, queue: ThreadQ) returns (head: QThread?)
      requires QueuesLinked(s.queues, s.threads.Keys) && name in s.queues && queue == QueueOf(name)
      modifies queue
      ensures QueuesLinked(PopFront(s, name).queues, s.threads.Keys)
      ensures var q := Q(s, name);
              if q == [] then head == null
              else head == q[0] && head.next == (if |q| >= 2 then q[1] else null)
    {
      hide Separate, ThreadQ.Valid;
      PopSeparate(s, name);
      head := queue.PopFront();
      forall k | k in s.queues && k != name
        ensures QueueOf(k).Contents == s.queues[k] && QueueOf(k).Valid()
      {
        assert old(QueueOf(k).Valid());
      }
    }

    method Pop(ghost name: QueueName, queue: ThreadQ) returns (head: QThread?)
      requires Linked() && name in st.queues && queue == QueueOf(name)
      modifies this`st, queue
      ensures Linked() && st == PopFront(old(st), name)
      ensures var q := Q(old(st), name);
              if q == [] then head == null
              else head == q[0] && head.next == (if |q| >= 2 then q[1] else null)
    {
      hide RecordOK, LocksMatch, QueuesLinked;
      head := Unlink(st, name, queue);
      st := PopFront(st, name);
    }

    lemma HeadLeaves(name: QueueName)
      requires Linked() && name in st.queues && Q(st, name) != []
      ensures Q(st, name)[0] in st.threads && !Queued(PopFront(st, name), Q(st, name)[0])
    {
      var s1 := PopFront(st, name);
      var head := Q(st, name)[0];
      assert head in st.queues[name] && QueueOf(name).Valid();
      forall k | k in s1.queues ensures head !in s1.queues[k] {
        if k == name {
          assert forall i | 0 < i < |st.queues[k]| :: st.queues[k][i] != head;
        }
      }
    }

    // -------------------------------------------------------------------------------------
    // The scheduler.

    method GetUsecs() returns (now: int)
      requires Linked()
      modifies this`st, this`ticks
      ensures Linked() && st == old(st).(ticks := old(st).ticks + 1) && now == Reading(clock, old(st).ticks)
    {
      hide LocksMatch, QueuesLinked;
      now := Reading(clock, ticks);
      ticks := ticks + 1;
      st := st.(ticks := ticks);
    }

    /** The state before the clock reading last made. */
    ghost function Unread(): State
      reads this
      requires st.ticks > 0
    {
      st.(ticks := st.ticks - 1)
    }

    /** The body of the loop's `if`: the next sleeper is popped and the old one goes to the end.
        The popped thread's `next` is left as it was. */
    method TurnSleepers(head: QThread) returns (newHead: QThread)
      requires Linked() && head in st.threads && !Queued(st, head) && Q(st, Sleeping) != []
      modifies this`st, sleeping, st.threads.Keys`next
      ensures Linked() && st == Rotate(old(st), head)
      ensures newHead == Q(old(st), Sleeping)[0] && newHead in st.threads && !Queued(st, newHead)
      ensures newHead.next != null <==> |Q(old(st), Sleeping)| >= 2
    {
      hide LocksMatch, QueuesLinked;
      ghost var s := st;
      HeadLeaves(Sleeping);
      assert Queued(s, Q(s, Sleeping)[0]);
      newHead := Pop(Sleeping, sleeping);
      ghost var s1 := st;
      assert !Queued(s1, head) by { PoppedMembers(s, Sleeping, head); }
      PushMembers(s1, Sleeping, head);
      Push(Sleeping, sleeping, head);
    }

    lemma PoppedMembers(s: State, n: QueueName, t: QThread)
      requires !Queued(s, t) && n in s.queues
      ensures !Queued(PopFront(s, n), t)
    {
      assert forall k | k in s.queues && t in PopFront(s, n).queues[k] :: t in s.queues[k];
    }

    /** The loop, from the sleeper popped first to the one found due. */
    method TurnUntilDue(first: QThread) returns (head: QThread)
      requires Linked() && first in st.threads && !Queued(st, first)
      requires first.next == null || Q(st, Sleeping) != []
      modifies this`st, this`ticks, sleeping, st.threads.Keys`next
      ensures Linked() && st.threads == old(st).threads && head in st.threads && !Queued(st, head)
      ensures PushBack(st, Runnable, head) == WakeLoop(clock, old(st), first, old(first.next) != null)
    {
      hide Linked, WakeLoop, Rotate, WakeTicksLeft, Reading;
      head := first;
      var now := GetUsecs();
      while head.timing > now
        invariant Linked() && st.threads == old(st).threads && st.ticks > 0
        invariant head in st.threads && !Queued(st, head)
        invariant head.next == null || Q(st, Sleeping) != []
        invariant now == Reading(clock, st.ticks - 1)
        invariant WakeLoop(clock, Unread(), head, head.next != null)
               == WakeLoop(clock, old(st), first, old(first.next) != null)
        decreases WakeTicksLeft(clock, st.threads, st.ticks - 1)
      {
        FieldsMatch(head);
        TicksLeft(clock, Unread(), head, st);
        WakeContinues(clock, Unread(), head, head.next != null);
        if head.next != null {
          RotateFacts(st, head);
          head := TurnSleepers(head);
        }
        now := GetUsecs();
      }
      FieldsMatch(head);
      WakeEnds(clock, Unread(), head, head.next != null);
    }

    method WakeSleepingThreads() returns (woke: bool)
      requires Linked()
      modifies this`st, this`ticks, runnable, sleeping, st.threads.Keys`next
      ensures Linked() && st == Wake(clock, old(st)) && woke == (Q(old(st), Sleeping) != [])
    {
      hide Linked, WakeLoop, Wake, PushBack;
      WakeStarts(clock, st);
      SizeIsLength(Sleeping);
      if sleeping.size == 0 {
        return false;
      }
      HeadLeaves(Sleeping);
      var head := Pop(Sleeping, sleeping);
      head := TurnUntilDue(head);
      SizeIsLength(Runnable);
      Push(Runnable, runnable, head);
      return true;
    }

    lemma SizeIsLength(name: QueueName)
      requires Linked() && (name in st.queues || name == Runnable || name == Sleeping)
      ensures QueueOf(name).size == |st.queues[name]|
      ensures Runnable in st.queues && Sleeping in st.queues
    {
      assert QueueOf(name).Valid();
    }

    lemma FieldsMatch(t: QThread)
      requires Linked() && t in st.threads
      ensures t.timing == Info(st, t).timing && t.dead == Info(st, t).dead
      ensures t.context == Info(st, t).context && t.waiter == Info(st, t).waiter
      ensures t.returnVal == Info(st, t).returnVal
    {
      assert RecordOK(t, st.threads[t]);
    }

    lemma FieldsGive(t: QThread, i: ThreadInfo)
      requires t.dead == i.dead && t.waiter == i.waiter && t.returnVal == i.returnVal
      requires t.timing == i.timing && t.context == i.context
      ensures RecordOK(t, i)
    {
    }

    method SetCurrent(t: QThread?)
      requires Linked()
      modifies this`st, this`current
      ensures Linked() && st == old(st).(current := t)
    {
      hide LocksMatch, QueuesLinked;
      current := t;
      st := st.(current := t);
    }

    method SetCpu(t: QThread?)
      requires Linked()
      modifies this`st, this`cpu
      ensures Linked() && st == old(st).(cpu := t)
    {
      hide LocksMatch, QueuesLinked;
      cpu := t;
      st := st.(cpu := t);
    }

    /** switch_runnable.  Popping from an empty queue gives NULL, and reading its `dead` stops the
        program; the dead test keeps the old stack running. */
    method SwitchRunnable(oldCurrent: QThread)
      requires Linked()
      modifies this`st, this`current, this`cpu, runnable
      ensures Linked() && st == ThreadModel.SwitchRunnable(old(st), oldCurrent)
    {
      hide Linked;
      Globals();
      if Q(st, Runnable) != [] {
        HeadLeaves(Runnable);
      }
      var next := Pop(Runnable, runnable);
      SetCurrent(next);
      Globals();
      if current == null {
        SetCpu(null);
        return;
      }
      if current == oldCurrent {
        return;
      }
      FieldsMatch(current);
      if !current.dead {
        SetCpu(current);
      }
    }

    lemma Globals()
      requires Linked()
      ensures current == st.current && cpu == st.cpu && ticks == st.ticks
      ensures runnable.size == |Q(st, Runnable)| && sleeping.size == |Q(st, Sleeping)|
      ensures Runnable in st.queues && Sleeping in st.queues
    {
      SizeIsLength(Runnable);
      SizeIsLength(Sleeping);
    }

    method WakeIfIdle()
      requires Linked()
      modifies this`st, this`ticks, runnable, sleeping, st.threads.Keys`next
      ensures Linked() && st == ThreadModel.WakeIfIdle(clock, old(st))
    {
      hide Linked, WakeLoop;
      Globals();
      if runnable.size == 0 {
        if sleeping.size > 0 {
          var woke := WakeSleepingThreads();
        }
      }
    }

    /** schedule */
    method Schedule(kind: Kind)
      requires Linked() && st.current != null && st.current in st.threads
      requires kind in {ForYield, ForSleep} ==> !Queued(st, st.current)
      modifies this`st, this`current, this`cpu, this`ticks, runnable, sleeping, st.threads.Keys`next
      ensures Linked() && st == ThreadModel.Schedule(clock, old(st), kind)
    {
      hide Linked, Wake;
      Globals();
      WakeFrame(clock, st);
      var oldCurrent := current;
      if kind == ForExit {
        WakeIfIdle();
      }
      match kind {
        case ForExit =>
        case ForWait =>
        case ForSleep => Push(Sleeping, sleeping, oldCurrent);
        case ForYield => Push(Runnable, runnable, oldCurrent);
      }
      Globals();
      WakeFrame(clock, st);
      WakeIfIdle();
      SwitchRunnable(oldCurrent);
    }

    // -------------------------------------------------------------------------------------
    // The records.

    method WriteContext(t: QThread, x: Context)
      requires Linked() && t in st.threads
      modifies this`st, t`context
      ensures Linked() && st == SetContext(old(st), t, x)
      ensures st.threads.Keys == old(st.threads.Keys)
    {
      hide LocksMatch, QueuesLinked, RecordOK;
      FieldsMatch(t);
      t.context := x;
      st := SetContext(st, t, x);
      FieldsGive(t, st.threads[t]);
      assert st.threads.Keys == old(st.threads.Keys);
    }

    method WriteWaiter(t: QThread, w: QThread)
      requires Linked() && t in st.threads
      modifies this`st, t`waiter
      ensures Linked() && st == SetWaiter(old(st), t, w)
      ensures st.threads.Keys == old(st.threads.Keys)
    {
      hide LocksMatch, QueuesLinked, RecordOK;
      FieldsMatch(t);
      t.waiter := w;
      st := SetWaiter(st, t, w);
      FieldsGive(t, st.threads[t]);
      assert st.threads.Keys == old(st.threads.Keys);
    }

    method WriteExit(t: QThread, v: int)
      requires Linked() && t in st.threads
      modifies this`st, t`returnVal, t`dead
      ensures Linked() && st == SetInfo(old(st), t, Info(old(st), t).(returnVal := v, dead := true))
      ensures st.threads.Keys == old(st.threads.Keys)
    {
      hide LocksMatch, QueuesLinked, RecordOK;
      FieldsMatch(t);
      t.returnVal := v;
      t.dead := true;
      st := SetInfo(st, t, st.threads[t].(returnVal := v, dead := true));
      FieldsGive(t, st.threads[t]);
      assert st.threads.Keys == old(st.threads.Keys);
    }

    method WriteTiming(t: QThread, until: int)
      requires Linked() && t in st.threads
      modifies this`st, t`timing
      ensures Linked() && st == SetInfo(old(st), t, Info(old(st), t).(timing := until))
      ensures st.threads.Keys == old(st.threads.Keys)
    {
      hide LocksMatch, QueuesLinked, RecordOK;
      FieldsMatch(t);
      t.timing := until;
      st := SetInfo(st, t, st.threads[t].(timing := until));
      FieldsGive(t, st.threads[t]);
      assert st.threads.Keys == old(st.threads.Keys);
    }

    /** Who holds which mutex is history only. */
    ghost method NoteHolds(t: QThread, holds: set<QMutex>)
      requires Linked() && t in st.threads
      modifies this`st
      ensures Linked() && st == SetInfo(old(st), t, Info(old(st), t).(holds := holds))
      ensures st.threads.Keys == old(st.threads.Keys)
    {
      hide LocksMatch, QueuesLinked;
      assert RecordOK(t, st.threads[t]);
      st := SetInfo(st, t, st.threads[t].(holds := holds));
      assert st.threads.Keys == old(st.threads.Keys);
    }

    method WriteLocked(m: QMutex, locked: bool, ghost owner: QThread?)
      requires Linked() && m in st.mutexes
      modifies this`st, m`locked
      ensures Linked() && st == old(st).(mutexes := old(st).mutexes[m := MutexInfo(locked, owner)])
    {
      hide QueuesLinked;
      m.locked := locked;
      st := st.(mutexes := st.mutexes[m := MutexInfo(locked, owner)]);
    }

    lemma LockMatches(m: QMutex)
      requires Linked() && m in st.mutexes
      ensures m.locked == st.mutexes[m].locked
    {
    }

    // -------------------------------------------------------------------------------------
    // The entry points, as called by the running thread.  A method ends where the thread is
    // switched out; Resume goes on from there once it is current again.

    ghost predicate Calling()
      reads this
    {
      st.current != null && st.current in st.threads && st.threads[st.current].context == Running
    }

    /** The structure qthread_create fills in; the parameters are what malloc leaves in it. */
    static method NewThread(next: QThread?, dead: bool, waiter: QThread?, returnVal: int, timing: int)
      returns (thread: QThread)
      ensures fresh(thread) && thread.next == null && !thread.dead && thread.waiter == null
      ensures thread.returnVal == returnVal && thread.timing == timing && thread.context == Ready
    {
      thread := new QThread(next, dead, waiter, returnVal, timing);
      thread.next := null;
      thread.dead := false;
      thread.waiter := null;
    }

    /** qthread_create */
    method Create(next: QThread?, dead: bool, waiter: QThread?, returnVal: int, timing: int)
      returns (thread: QThread)
      requires Valid() && Calling()
      modifies this`st, runnable, st.threads.Keys`next
      ensures Valid() && fresh(thread)
      ensures st == Step(clock, old(st), ThreadModel.Create(thread, returnVal, timing))
    {
      hide Inv, Separate, ThreadQ.Valid;
      thread := NewThread(next, dead, waiter, returnVal, timing);
      StepKeeps(clock, st, ThreadModel.Create(thread, returnVal, timing));
      Globals();
      StrangerNotQueued(thread);
      Adopt(thread);
      Push(Runnable, runnable, thread);
    }

    lemma StrangerNotQueued(thread: QThread)
      requires Linked() && thread !in st.threads
      ensures !Queued(st, thread)
    {
    }

    ghost method Adopt(thread: QThread)
      requires Linked() && thread !in st.threads
      requires !thread.dead && thread.waiter == null && thread.context == Ready
      modifies this`st
      ensures Linked()
      ensures st == SetInfo(old(st), thread,
                      ThreadInfo(false, null, thread.returnVal, thread.timing, Ready, {}))
    {
      hide LocksMatch, ThreadQ.Valid;
      st := SetInfo(st, thread, ThreadInfo(false, null, thread.returnVal, thread.timing, Ready, {}));
    }

    /** qthread_mutex_create sets only the size of the new queue. */
    method NewMutex(front: QThread?, end: QThread?) returns (m: QMutex)
      requires Valid() && Calling()
      modifies this`st
      ensures Valid() && fresh(m) && st == Step(clock, old(st), ThreadModel.NewMutex(m))
    {
      hide Inv, ThreadQ.Valid;
      var queue := new ThreadQ(front, end);
      m := new QMutex(queue);
      StepKeeps(clock, st, ThreadModel.NewMutex(m));
      AdoptQueue(MutexQueue(m), st.mutexes[m := MutexInfo(false, null)]);
    }

    /** qthread_cond_create */
    method NewCond(front: QThread?, end: QThread?) returns (c: QCond)
      requires Valid() && Calling()
      modifies this`st
      ensures Valid() && fresh(c) && st == Step(clock, old(st), ThreadModel.NewCond(c))
    {
      hide Inv, ThreadQ.Valid, Separate;
      var queue := new ThreadQ(front, end);
      c := new QCond(queue);
      assert CondQueue(c) !in st.queues;
      StepKeeps(clock, st, ThreadModel.NewCond(c));
      AdoptQueue(CondQueue(c), st.mutexes);
    }

    ghost method AdoptQueue(name: QueueName, mutexes: map<QMutex, MutexInfo>)
      requires Linked() && name !in st.queues && QueueOf(name) !in Queues(st.queues)
      requires QueueOf(name).Valid() && QueueOf(name).Contents == []
      requires LocksMatch(mutexes)
      modifies this`st
      ensures Linked() && st == old(st).(queues := old(st).queues[name := []], mutexes := mutexes)
    {
      hide RecordOK, LocksMatch, ThreadQ.Valid;
      ghost var queues := st.queues[name := []];
      assert Separate(queues, st.threads.Keys);
      assert QueuesLinked(queues, st.threads.Keys) by {
        forall n1, n2 | n1 in queues && n2 in queues && QueueOf(n1) == QueueOf(n2) ensures n1 == n2 {
          assert n1 in st.queues ==> QueueOf(n1) in Queues(st.queues);
          assert n2 in st.queues ==> QueueOf(n2) in Queues(st.queues);
        }
      }
      st := st.(queues := queues, mutexes := mutexes);
    }

    /** qthread_yield */
    method Yield()
      requires Valid() && Legal(st, ThreadModel.Yield)
      modifies this`st, this`current, this`cpu, this`ticks, runnable, sleeping
      modifies st.threads.Keys`next, st.threads.Keys`context
      ensures Valid() && st == Step(clock, old(st), ThreadModel.Yield)
    {
      hide Linked, Inv;
      StepKeeps(clock, st, ThreadModel.Yield);
      NotQueued(st);
      Globals();
      WriteContext(current, Ready);
      Schedule(ForYield);
    }

    /** qthread_exit */
    method Exit(v: int)
      requires Valid() && Legal(st, ThreadModel.Exit(v))
      modifies this`st, this`current, this`cpu, this`ticks, runnable, sleeping, st.threads.Keys
      ensures Valid() && st == Step(clock, old(st), ThreadModel.Exit(v))
    {
      hide Linked, Inv, Queued, MarkExited, ThreadModel.Schedule;
      StepKeeps(clock, st, ThreadModel.Exit(v));
      JoinerIsFree(st);
      Globals();
      FieldsMatch(current);
      ExitWritten(st, current, v);
      WriteExit(current, v);
      Globals();
      WriteContext(current, Exited);
      Globals();
      FieldsMatch(current);
      if current.waiter != null {
        Push(Runnable, runnable, current.waiter);
      }
      Schedule(ForExit);
    }

    lemma JoinerIsFree(s: State)
      requires Inv(clock, s) && s.current != null
      ensures var w := s.threads[s.current].waiter;
              w != null ==> w in s.threads && !Queued(s, w) && w != s.current
    {
      var w := s.threads[s.current].waiter;
      assert ThreadOK(s, s.current);
      if w != null {
        JoinBlocksOnce(clock, s, w, s.current);
      }
    }

    lemma NotQueued(s: State)
      requires Inv(clock, s) && s.current != null
      ensures !Queued(s, s.current) && s.cpu == s.current && s.current in s.threads
    {
    }

    /** The loop of qthread_join: one test, and one call of schedule when it fails. */
    method JoinLoop(target: QThread) returns (r: Option<int>)
      requires Linked() && st.current != null && st.current in st.threads && target in st.threads
      modifies this`st, this`current, this`cpu, this`ticks, runnable, sleeping
      modifies st.threads.Keys`next, st.threads.Keys`context
      ensures Linked() && st == ThreadModel.JoinLoop(clock, old(st), target)
      ensures r == if Info(old(st), target).dead then Some(Info(old(st), target).returnVal) else None
    {
      Globals();
      FieldsMatch(target);
      if !target.dead {
        WriteContext(current, Joining(target));
        Schedule(ForWait);
        return None;
      }
      WriteContext(current, Running);
      FieldsMatch(target);
      return Some(target.returnVal);
    }

    /** qthread_join.  A value comes back when the call returns without blocking. */
    method Join(target: QThread) returns (r: Option<int>)
      requires Valid() && Legal(st, ThreadModel.Join(target))
      modifies this`st, this`current, this`cpu, this`ticks, runnable, sleeping, st.threads.Keys
      ensures Valid() && st == Step(clock, old(st), ThreadModel.Join(target))
      ensures r == (if JoinResult(old(st), ThreadModel.Join(target), target).0
                    then Some(JoinResult(old(st), ThreadModel.Join(target), target).1) else None)
    {
      hide Linked, Inv;
      StepKeeps(clock, st, ThreadModel.Join(target));
      Globals();
      WriteWaiter(target, current);
      r := JoinLoop(target);
    }

    /** qthread_usleep */
    method Usleep(usecs: int)
      requires Valid() && Legal(st, ThreadModel.Usleep(usecs))
      modifies this`st, this`current, this`cpu, this`ticks, runnable, sleeping
      modifies st.threads.Keys`next, st.threads.Keys`context, st.threads.Keys`timing
      ensures Valid() && st == Step(clock, old(st), ThreadModel.Usleep(usecs))
    {
      hide Linked, Inv, Queued, StartSleep, ThreadModel.Schedule;
      StepKeeps(clock, st, ThreadModel.Usleep(usecs));
      NotQueued(st);
      Globals();
      SleepWritten(clock, st, current, usecs);
      var t := current;
      var now := GetUsecs();
      WriteTiming(t, now + usecs);
      WriteContext(t, Asleep(now + usecs));
      Schedule(ForSleep);
    }

    /** qthread_mutex_lock, from the start or as the last call of qthread_cond_wait. */
    method LockMutex(m: QMutex)
      requires Linked() && st.current != null && st.current in st.threads && !Queued(st, st.current)
      requires m in st.mutexes && MutexQueue(m) in st.queues
      modifies this`st, this`current, this`cpu, this`ticks, runnable, sleeping, m`locked, m.queue
      modifies st.threads.Keys`next, st.threads.Keys`context
      ensures Linked() && st == ThreadModel.LockMutex(clock, old(st), m)
    {
      Globals();
      LockMatches(m);
      if !m.locked {
        TakeWritten(st, current, m);
        WriteLocked(m, true, current);
        Globals();
        WriteContext(current, Running);
        Globals();
        NoteHolds(current, Info(st, current).holds + {m});
      } else {
        Push(MutexQueue(m), m.queue, current);
        Globals();
        WriteContext(current, Locking(m));
        Schedule(ForWait);
      }
    }

    method Lock(m: QMutex)
      requires Valid() && Legal(st, ThreadModel.Lock(m))
      modifies this`st, this`current, this`cpu, this`ticks, runnable, sleeping, m`locked, m.queue
      modifies st.threads.Keys`next, st.threads.Keys`context
      ensures Valid() && st == Step(clock, old(st), ThreadModel.Lock(m))
    {
      hide Linked, Inv;
      StepKeeps(clock, st, ThreadModel.Lock(m));
      NotQueued(st);
      MutexHasQueue(st, m);
      LockMutex(m);
    }

    /** qthread_mutex_unlock: with waiters the mutex passes to the first of them still locked. */
    method ReleaseMutex(m: QMutex)
      requires Linked() && st.current != null && st.current in st.threads
      requires m in st.mutexes && MutexQueue(m) in st.queues
      requires Q(st, MutexQueue(m)) != [] ==> st.mutexes[m].locked
      modifies this`st, runnable, m`locked, m.queue, st.threads.Keys`next
      ensures Linked() && st == ThreadModel.ReleaseMutex(old(st), old(st).current, m)
      ensures st.threads.Keys == old(st.threads.Keys)
    {
      Globals();
      SizeIsLength(MutexQueue(m));
      LockMatches(m);
      NoteHolds(current, Info(st, current).holds - {m});
      SizeIsLength(MutexQueue(m));
      if m.queue.size > 0 {
        HeadLeaves(MutexQueue(m));
        var tmp := Pop(MutexQueue(m), m.queue);
        if tmp != null {
          Globals();
          Push(Runnable, runnable, tmp);
        }
        LockMatches(m);
        WriteLocked(m, m.locked, tmp);
      } else {
        WriteLocked(m, false, null);
      }
    }

    method Unlock(m: QMutex)
      requires Valid() && Legal(st, ThreadModel.Unlock(m))
      modifies this`st, runnable, m`locked, m.queue, st.threads.Keys`next
      ensures Valid() && st == Step(clock, old(st), ThreadModel.Unlock(m))
    {
      hide Linked, Inv;
      StepKeeps(clock, st, ThreadModel.Unlock(m));
      Held(st, m);
      ReleaseMutex(m);
    }

    lemma MutexHasQueue(s: State, m: QMutex)
      requires Inv(clock, s) && m in s.mutexes
      ensures MutexQueue(m) in s.queues
    {
    }

    lemma Held(s: State, m: QMutex)
      requires Inv(clock, s) && s.current != null && m in s.threads[s.current].holds
      ensures m in s.mutexes && MutexQueue(m) in s.queues && s.mutexes[m].locked
    {
      assert ThreadOK(s, s.current) && MutexOK(s, m);
    }

    /** qthread_cond_wait, up to where the thread is switched out. */
    method Wait(c: QCond, m: QMutex)
      requires Valid() && Legal(st, ThreadModel.Wait(c, m))
      modifies this`st, this`current, this`cpu, this`ticks, runnable, sleeping, m`locked, m.queue, c.queue
      modifies st.threads.Keys`next, st.threads.Keys`context
      ensures Valid() && st == Step(clock, old(st), ThreadModel.Wait(c, m))
    {
      hide Linked, Inv, Queued, StartWait, ThreadModel.ReleaseMutex, ThreadModel.Schedule;
      StepKeeps(clock, st, ThreadModel.Wait(c, m));
      Held(st, m);
      WaitWritten(st, c, m);
      Globals();
      ReleaseMutex(m);
      Globals();
      Push(CondQueue(c), c.queue, current);
      Globals();
      WriteContext(current, Waiting(c, m));
      Schedule(ForWait);
    }

    lemma WaitWritten(s: State, c: QCond, m: QMutex)
      requires Inv(clock, s) && Legal(s, ThreadModel.Wait(c, m))
      ensures var s1 := ThreadModel.ReleaseMutex(s, s.current, m); var t := s.current;
              && s1.current == t && t in s1.threads && CondQueue(c) in s1.queues && !Queued(s1, t)
              && SetContext(PushBack(s1, CondQueue(c), t), t, Waiting(c, m)) == StartWait(s, t, c, m)
              && t in StartWait(s, t, c, m).threads && StartWait(s, t, c, m).current == t
    {
      ReleaseMutexKeeps(clock, s, m);
      Released(clock, s, m);
    }

    /** One wake-up of qthread_cond_signal, or of one turn of the loop of qthread_cond_broadcast. */
    method WakeWaiter(c: QCond)
      requires Linked() && CondQueue(c) in st.queues
      modifies this`st, runnable, c.queue, st.threads.Keys`next
      ensures Linked() && st == SignalCond(old(st), c)
    {
      hide Linked;
      SizeIsLength(CondQueue(c));
      if c.queue.size > 0 {
        HeadLeaves(CondQueue(c));
        var tmp := Pop(CondQueue(c), c.queue);
        Globals();
        Push(Runnable, runnable, tmp);
      }
    }

    /** qthread_cond_signal */
    method Signal(c: QCond)
      requires Valid() && Legal(st, ThreadModel.Signal(c))
      modifies this`st, runnable, c.queue, st.threads.Keys`next
      ensures Valid() && st == Step(clock, old(st), ThreadModel.Signal(c))
    {
      hide Linked, Inv;
      StepKeeps(clock, st, ThreadModel.Signal(c));
      WakeWaiter(c);
    }

    /** qthread_cond_broadcast */
    method Broadcast(c: QCond)
      requires Valid() && Legal(st, ThreadModel.Broadcast(c))
      modifies this`st, runnable, c.queue, st.threads.Keys`next
      ensures Valid() && st == Step(clock, old(st), ThreadModel.Broadcast(c))
    {
      hide Linked, Inv;
      StepKeeps(clock, st, ThreadModel.Broadcast(c));
      SizeIsLength(CondQueue(c));
      while c.queue.size > 0
        invariant Linked() && CondQueue(c) in st.queues && c.queue.size == |Q(st, CondQueue(c))|
        invariant st.threads == old(st).threads
        invariant BroadcastCond(st, c) == BroadcastCond(old(st), c)
        decreases c.queue.size
      {
        WakeWaiter(c);
        SizeIsLength(CondQueue(c));
      }
    }

    /** Where a thread goes on once it is current again.  A value comes back exactly from a join, which
        then returns. */
    method Resume() returns (r: Option<int>)
      requires Valid() && Legal(st, ThreadModel.Resume)
      modifies this`st, this`current, this`cpu, this`ticks, runnable, sleeping
      modifies st.threads.Keys, st.mutexes.Keys`locked, Queues(st.queues)
      ensures Valid() && st == Step(clock, old(st), ThreadModel.Resume)
      ensures r == match Info(old(st), old(st).current).context
                   case Joining(target) => Some(Info(old(st), target).returnVal)
                   case _ => None
    {
      hide Linked, Inv, ThreadModel.JoinLoop, ThreadModel.LockMutex;
      StepKeeps(clock, st, ThreadModel.Resume);
      NotQueued(st);
      ContextTargets(st);
      Globals();
      FieldsMatch(current);
      r := None;
      var context := current.context;
      if context.Locking? {
        ReturnWritten(st, current, Info(st, current).holds + {context.m});
        WriteContext(current, Running);
        Globals();
        NoteHolds(current, Info(st, current).holds + {context.m});
      } else if context.Waiting? {
        LockMutex(context.m);
      } else if context.Joining? {
        JoinBlocksOnce(clock, st, current, context.target);
        r := JoinLoop(context.target);
      } else {
        WriteContext(current, Running);
      }
    }

    lemma ContextTargets(s: State)
      requires Inv(clock, s) && s.current != null
      ensures var x := s.threads[s.current].context;
              && (x.Waiting? ==> x.m in s.mutexes && MutexQueue(x.m) in s.queues)
              && (x.Joining? ==> x.target in s.threads)
    {
      assert ThreadOK(s, s.current);
    }
  }
}
