/** What every call of the library does, said without the code's own steps: which records, mutexes and
    queues it changes and how, and who runs next. */
module ThreadEffects {
  import opened ThreadModel
  import opened ThreadInvariants
  import opened ThreadSteps
  import opened ThreadRuns

  // ---------------------------------------------------------------------------------------
  // Who runs next.

  function Deadline(threads: map<QThread, ThreadInfo>, t: QThread): int {
    if t in threads then threads[t].timing else NO_THREAD.timing
  }

  /** Whether reading `j` after the first `ticks` finds the sleeper that the loop then looks at due. */
  predicate DueAt(clock: Clock, threads: map<QThread, ThreadInfo>, sleepers: seq<QThread>, ticks: nat, j: nat)
    requires sleepers != []
  {
    Deadline(threads, sleepers[WokenPlace(|sleepers|, j)]) <= Reading(clock, ticks + j)
  }

  /** Reading `k` is the first to find one due. */
  ghost predicate WakesAt(
      clock: Clock, threads: map<QThread, ThreadInfo>, sleepers: seq<QThread>, ticks: nat, k: nat)
    requires sleepers != []
  {
    DueAt(clock, threads, sleepers, ticks, k)
    && forall j: nat :: j < k ==> !DueAt(clock, threads, sleepers, ticks, j)
  }

  /** With the threads `ready` to run, in this order, and `sleepers` asleep: the first that is ready runs,
      at once and whoever sleeps.  If nobody is ready, the first sleeper found due does, after as many
      readings as that takes, and the others stay in their cyclic order.  If nobody sleeps either, nobody
      runs. */
  ghost predicate Dispatched(
      clock: Clock, threads: map<QThread, ThreadInfo>, ready: seq<QThread>, sleepers: seq<QThread>, ticks: nat,
      s1: State)
  {
    && s1.threads == threads
    && if ready != [] then
         && s1.current == ready[0] && s1.ticks == ticks
         && Q(s1, Runnable) == ready[1..] && Q(s1, Sleeping) == sleepers
       else if sleepers != [] then
         && Q(s1, Runnable) == []
         && exists k: nat :: WakesAt(clock, threads, sleepers, ticks, k) && WokenAt(sleepers, ticks, k, s1)
       else
         s1.current == null && s1.ticks == ticks && Q(s1, Runnable) == [] && Q(s1, Sleeping) == []
  }

  predicate WokenAt(sleepers: seq<QThread>, ticks: nat, k: nat, s1: State)
    requires sleepers != []
  {
    var r := WokenPlace(|sleepers|, k);
    s1.current == sleepers[r] && s1.ticks == ticks + k + 1 && Q(s1, Sleeping) == sleepers[r + 1..] + sleepers[..r]
  }

  /** Mutexes and all queues but the scheduler's and those named are as before. */
  ghost predicate Kept(s: State, s1: State, changed: set<QueueName>) {
    && s1.mutexes == s.mutexes
    && forall n | n in s.queues.Keys + s1.queues.Keys ::
         n != Runnable && n != Sleeping && n !in changed ==> Q(s1, n) == Q(s, n)
  }

  lemma DueIsDue(clock: Clock, s: State, j: nat)
    requires Q(s, Sleeping) != []
    ensures DueAt(clock, s.threads, Q(s, Sleeping), s.ticks, j)
       <==> !NotDue(clock, s, Q(s, Sleeping), |Q(s, Sleeping)| >= 2, j)
  {
    ExaminedIs(|Q(s, Sleeping)|, j);
  }

  lemma FirstDueWakes(clock: Clock, s: State, k: nat)
    requires Q(s, Sleeping) != [] && FirstDue(clock, s, k)
    ensures WakesAt(clock, s.threads, Q(s, Sleeping), s.ticks, k)
  {
    hide Examined, DueAt, NotDue;
    DueIsDue(clock, s, k);
    forall j: nat | j < k ensures !DueAt(clock, s.threads, Q(s, Sleeping), s.ticks, j) {
      DueIsDue(clock, s, j);
      assert NotDue(clock, s, Q(s, Sleeping), |Q(s, Sleeping)| >= 2, j);
    }
  }

  /** Switching to the sleeper just woken. */
  lemma SwitchToWoken(s: State, s2: State, k: nat, old_: QThread?)
    requires HasScheduler(s) && Q(s, Runnable) == [] && Q(s, Sleeping) != []
    requires var ring := Q(s, Sleeping); var r := WokenPlace(|ring|, k);
             s2 == s.(ticks := s.ticks + k + 1,
                      queues := s.queues[Sleeping := ring[r + 1..] + ring[..r]][Runnable := Q(s, Runnable) + [ring[r]]])
    ensures var s1 := SwitchRunnable(s2, old_);
            s1.threads == s.threads && Kept(s, s1, {}) && Q(s1, Runnable) == [] && WokenAt(Q(s, Sleeping), s.ticks, k, s1)
  {
    hide WokenPlace;
  }

  lemma DispatchWakes(clock: Clock, s: State, old_: QThread?)
    requires HasScheduler(s) && Q(s, Runnable) == [] && Q(s, Sleeping) != []
    ensures var s1 := SwitchRunnable(WakeIfIdle(clock, s), old_);
            && s1.threads == s.threads && Kept(s, s1, {}) && Q(s1, Runnable) == []
            && exists k: nat :: WakesAt(clock, s.threads, Q(s, Sleeping), s.ticks, k)
                             && WokenAt(Q(s, Sleeping), s.ticks, k, s1)
  {
    hide Wake, WakesAt, FirstDue, Examined, WokenPlace, WokenAt, SwitchRunnable, Kept;
    WokenSleeper(clock, s);
    var k :| FirstDue(clock, s, k);
    FirstDueWakes(clock, s, k);
    ExaminedIs(|Q(s, Sleeping)|, k);
    PlaceIs(|Q(s, Sleeping)|, k);
    SwitchToWoken(s, WakeIfIdle(clock, s), k, old_);
  }

  /** The end of schedule: waking if nobody is runnable, and the switch. */
  lemma DispatchIs(clock: Clock, s: State, old_: QThread?)
    requires HasScheduler(s)
    ensures var s1 := SwitchRunnable(WakeIfIdle(clock, s), old_);
            Dispatched(clock, s.threads, Q(s, Runnable), Q(s, Sleeping), s.ticks, s1) && Kept(s, s1, {})
  {
    hide WakeIfIdle, WakesAt, WokenAt;
    if Q(s, Runnable) == [] && Q(s, Sleeping) != [] {
      DispatchWakes(clock, s, old_);
    } else {
      NobodyToWake(clock, s);
    }
  }

  lemma PlaceIs(n: nat, k: nat)
    requires n > 0
    ensures WokenPlace(n, k) == if n == 2 then if k == 0 then 0 else 1 else k % n
  {
  }

  lemma NobodyToWake(clock: Clock, s: State)
    requires Q(s, Runnable) != [] || Q(s, Sleeping) == []
    ensures WakeIfIdle(clock, s) == s
  {
  }

  /** Waking twice is waking once. */
  lemma WakesOnce(clock: Clock, s: State)
    requires HasScheduler(s)
    ensures WakeIfIdle(clock, WakeIfIdle(clock, s)) == WakeIfIdle(clock, s)
  {
    hide WakeIfIdle;
    if Q(s, Runnable) != [] || Q(s, Sleeping) == [] {
      NobodyToWake(clock, s);
    } else {
      IdleWakes(clock, s);
      NobodyToWake(clock, WakeIfIdle(clock, s));
    }
  }

  /** The whole of schedule.  A yielding thread is ready, behind the others, before anybody is woken; a
      thread that goes to sleep is one of the sleepers. */
  lemma ScheduleIs(clock: Clock, s: State, kind: Kind)
    requires HasScheduler(s) && s.current != null
    ensures var s1 := Schedule(clock, s, kind);
            && Kept(s, s1, {})
            && Dispatched(clock, s.threads,
                          Q(s, Runnable) + (if kind == ForYield then [s.current] else []),
                          Q(s, Sleeping) + (if kind == ForSleep then [s.current] else []), s.ticks, s1)
  {
    hide WakeIfIdle, SwitchRunnable, Dispatched;
    WakesOnce(clock, s);
    var s2 := Park(s, kind, s.current);
    ParkedQueues(s, kind, s.current);
    DispatchIs(clock, s2, s.current);
  }

  lemma ParkedQueues(s: State, kind: Kind, t: QThread)
    requires HasScheduler(s)
    ensures var s1 := Park(s, kind, t);
            && HasScheduler(s1) && s1 == s.(queues := s1.queues) && Kept(s, s1, {})
            && Q(s1, Runnable) == Q(s, Runnable) + (if kind == ForYield then [t] else [])
            && Q(s1, Sleeping) == Q(s, Sleeping) + (if kind == ForSleep then [t] else [])
  {
  }

  // ---------------------------------------------------------------------------------------
  // The calls.

  /** After any call the thread named current is the one whose stack runs. */
  lemma CurrentRuns(clock: Clock, s: State, op: Op)
    requires Inv(clock, s) && Legal(s, op)
    ensures Step(clock, s, op).cpu == Step(clock, s, op).current
  {
    hide Rest, Step;
    StepKeeps(clock, s, op);
  }

  lemma YieldIs(clock: Clock, s: State)
    requires Inv(clock, s) && Legal(s, Yield)
    ensures var t := s.current; var s1 := Step(clock, s, Yield);
            && Kept(s, s1, {})
            && Dispatched(clock, s.threads[t := s.threads[t].(context := Ready)],
                          Q(s, Runnable) + [t], Q(s, Sleeping), s.ticks, s1)
  {
    hide Schedule, Dispatched, Rest;
    HasQueues(clock, s);
    ScheduleIs(clock, SetContext(s, s.current, Ready), ForYield);
    assert Q(s, Sleeping) + [] == Q(s, Sleeping);
  }

  /** With nothing runnable a yield returns to its caller at once, whoever sleeps. */
  lemma YieldAlone(clock: Clock, s: State)
    requires Inv(clock, s) && Legal(s, Yield) && Q(s, Runnable) == []
    ensures var s1 := Step(clock, s, Yield);
            && s1.current == s1.cpu == s.current && s1.ticks == s.ticks
            && Q(s1, Runnable) == [] && Q(s1, Sleeping) == Q(s, Sleeping)
  {
    hide Step, Rest;
    YieldIs(clock, s);
    CurrentRuns(clock, s, Yield);
  }

  /** A sleeper is the last of the ring that is gone round if nobody is ready. */
  lemma UsleepIs(clock: Clock, s: State, usecs: int)
    requires Inv(clock, s) && Legal(s, Usleep(usecs))
    ensures var t := s.current; var until := Reading(clock, s.ticks) + usecs; var s1 := Step(clock, s, Usleep(usecs));
            && Kept(s, s1, {})
            && Dispatched(clock, s.threads[t := s.threads[t].(timing := until, context := Asleep(until))],
                          Q(s, Runnable), Q(s, Sleeping) + [t], s.ticks + 1, s1)
  {
    hide Schedule, Dispatched, Rest;
    HasQueues(clock, s);
    ScheduleIs(clock, StartSleep(clock, s, s.current, usecs), ForSleep);
    assert Q(s, Runnable) + [] == Q(s, Runnable);
  }

  lemma ExitIs(clock: Clock, s: State, v: int)
    requires Inv(clock, s) && Legal(s, Exit(v))
    ensures var t := s.current; var w := s.threads[t].waiter; var s1 := Step(clock, s, Exit(v));
            && Kept(s, s1, {})
            && Dispatched(clock, s.threads[t := s.threads[t].(dead := true, returnVal := v, context := Exited)],
                          Q(s, Runnable) + (if w == null then [] else [w]), Q(s, Sleeping), s.ticks, s1)
  {
    hide Schedule, Dispatched, Rest;
    HasQueues(clock, s);
    var s0 := MarkExited(s, s.current, v);
    ScheduleIs(clock, s0, ForExit);
    assert Q(s0, Runnable) + [] == Q(s0, Runnable) && Q(s, Sleeping) + [] == Q(s, Sleeping);
  }

  /** A join of a dead thread returns, and a join of a live one blocks, leaving the joiner where only the
      exit of the target finds it. */
  lemma JoinIs(clock: Clock, s: State, target: QThread)
    requires Inv(clock, s) && Legal(s, Join(target))
    ensures var t := s.current; var s1 := Step(clock, s, Join(target));
            var joined := s.threads[target := s.threads[target].(waiter := t)];
            && (s.threads[target].dead ==> s1 == s.(threads := joined))
            && (!s.threads[target].dead ==>
                  && Kept(s, s1, {})
                  && Dispatched(clock, joined[t := s.threads[t].(context := Joining(target))],
                                Q(s, Runnable), Q(s, Sleeping), s.ticks, s1))
  {
    hide Schedule, Dispatched, Rest;
    HasQueues(clock, s);
    var t := s.current;
    var joined := s.threads[target := s.threads[target].(waiter := t)];
    if s.threads[target].dead {
      assert Step(clock, s, Join(target)).threads == joined;
    } else {
      var s0 := SetContext(SetWaiter(s, target, t), t, Joining(target));
      ScheduleIs(clock, s0, ForWait);
      assert s0.threads == joined[t := s.threads[t].(context := Joining(target))];
      assert Q(s0, Runnable) + [] == Q(s, Runnable) && Q(s0, Sleeping) + [] == Q(s, Sleeping);
    }
  }

  /** Taking `m`: a free mutex becomes locked and the caller's own, and it goes on; behind a locked one the
      caller is last in line. */
  ghost predicate TakesMutex(clock: Clock, s: State, m: QMutex, s1: State) {
    && s.current != null && s.current in s.threads && m in s.mutexes
    && var t := s.current; var i := s.threads[t];
       if !s.mutexes[m].locked then
         s1 == s.(mutexes := s.mutexes[m := MutexInfo(true, t)],
                  threads := s.threads[t := i.(context := Running, holds := i.holds + {m})])
       else
         && Kept(s, s1, {MutexQueue(m)})
         && Q(s1, MutexQueue(m)) == Q(s, MutexQueue(m)) + [t]
         && Dispatched(clock, s.threads[t := i.(context := Locking(m))],
                       Q(s, Runnable), Q(s, Sleeping), s.ticks, s1)
  }

  lemma LockMutexIs(clock: Clock, s: State, m: QMutex)
    requires HasScheduler(s) && s.current != null && s.current in s.threads && m in s.mutexes
    ensures TakesMutex(clock, s, m, LockMutex(clock, s, m))
  {
    hide Schedule, Dispatched;
    if s.mutexes[m].locked {
      var s0 := SetContext(PushBack(s, MutexQueue(m), s.current), s.current, Locking(m));
      ScheduleIs(clock, s0, ForWait);
      assert Q(s0, Runnable) + [] == Q(s, Runnable) && Q(s0, Sleeping) + [] == Q(s, Sleeping);
    }
  }

  lemma LockIs(clock: Clock, s: State, m: QMutex)
    requires Inv(clock, s) && Legal(s, Lock(m))
    ensures TakesMutex(clock, s, m, Step(clock, s, Lock(m)))
  {
    hide LockMutex, Rest, TakesMutex;
    HasQueues(clock, s);
    LockMutexIs(clock, s, m);
  }

  /** Locking a free mutex locks it for the caller, who goes on holding it. */
  lemma LockFree(clock: Clock, s: State, m: QMutex)
    requires Inv(clock, s) && Legal(s, Lock(m)) && !s.mutexes[m].locked
    ensures var s1 := Step(clock, s, Lock(m));
            && s1.mutexes[m] == MutexInfo(true, s.current) && s1.current == s.current
            && m in s1.threads[s.current].holds && s1.queues == s.queues
  {
    hide Step, Rest, Dispatched;
    LockIs(clock, s, m);
  }

  /** Releasing `m`: without waiters it becomes free; otherwise it stays locked, the first of them owns it
      and is the last ready to run. */
  ghost predicate ReleasedMutex(s: State, t: QThread, m: QMutex, s1: State) {
    && t in s.threads && s1 == s.(mutexes := s1.mutexes, threads := s1.threads, queues := s1.queues)
    && s1.threads == s.threads[t := s.threads[t].(holds := s.threads[t].holds - {m})]
    && var q := Q(s, MutexQueue(m));
       if q == [] then
         s1.mutexes == s.mutexes[m := MutexInfo(false, null)] && s1.queues == s.queues
       else
         && m in s.mutexes && s1.mutexes == s.mutexes[m := MutexInfo(s.mutexes[m].locked, q[0])]
         && s1.queues == s.queues[MutexQueue(m) := q[1..]][Runnable := Q(s, Runnable) + [q[0]]]
  }

  lemma ReleaseMutexIs(s: State, t: QThread, m: QMutex)
    requires t in s.threads && m in s.mutexes
    ensures ReleasedMutex(s, t, m, ReleaseMutex(s, t, m))
  {
  }

  lemma UnlockIs(clock: Clock, s: State, m: QMutex)
    requires Inv(clock, s) && Legal(s, Unlock(m))
    ensures ReleasedMutex(s, s.current, m, Step(clock, s, Unlock(m)))
  {
    hide Rest, ReleaseMutex, ReleasedMutex;
    HeldOwner(clock, s, m);
    ReleaseMutexIs(s, s.current, m);
  }

  /** The state as a waiting thread calls schedule. */
  lemma StartWaitIs(s: State, t: QThread, c: QCond, m: QMutex)
    requires t in s.threads && m in s.mutexes
    ensures var s0 := StartWait(s, t, c, m); var q := Q(s, MutexQueue(m));
            && s0.current == s.current && s0.ticks == s.ticks
            && s0.threads == s.threads[t := s.threads[t].(context := Waiting(c, m), holds := s.threads[t].holds - {m})]
            && s0.mutexes == s.mutexes[m := if q == [] then MutexInfo(false, null)
                                            else MutexInfo(s.mutexes[m].locked, q[0])]
            && Q(s0, CondQueue(c)) == Q(s, CondQueue(c)) + [t]
            && Q(s0, MutexQueue(m)) == (if q == [] then [] else q[1..])
            && Q(s0, Runnable) == Q(s, Runnable) + (if q == [] then [] else [q[0]])
            && Q(s0, Sleeping) == Q(s, Sleeping) && s.queues.Keys <= s0.queues.Keys
            && (forall n :: n !in {Runnable, CondQueue(c), MutexQueue(m)} ==> Q(s0, n) == Q(s, n))
  {
    hide ReleaseMutex;
    ReleaseMutexIs(s, t, m);
  }

  /** Releasing, joining the queue of the condition variable and switching away. */
  lemma WaitIs(clock: Clock, s: State, c: QCond, m: QMutex)
    requires Inv(clock, s) && Legal(s, Wait(c, m))
    ensures var t := s.current; var s1 := Step(clock, s, Wait(c, m)); var q := Q(s, MutexQueue(m));
            var i := s.threads[t].(context := Waiting(c, m), holds := s.threads[t].holds - {m});
            && m in s.mutexes
            && s1.mutexes == s.mutexes[m := if q == [] then MutexInfo(false, null)
                                            else MutexInfo(s.mutexes[m].locked, q[0])]
            && Q(s1, CondQueue(c)) == Q(s, CondQueue(c)) + [t]
            && Q(s1, MutexQueue(m)) == (if q == [] then [] else q[1..])
            && (forall n :: n !in {Runnable, Sleeping, CondQueue(c), MutexQueue(m)} ==> Q(s1, n) == Q(s, n))
            && Dispatched(clock, s.threads[t := i],
                          Q(s, Runnable) + (if q == [] then [] else [q[0]]), Q(s, Sleeping), s.ticks, s1)
  {
    hide Schedule, Dispatched, Rest, StartWait;
    HasQueues(clock, s);
    HeldOwner(clock, s, m);
    var s0 := StartWait(s, s.current, c, m);
    StartWaitIs(s, s.current, c, m);
    ScheduleIs(clock, s0, ForWait);
    assert Q(s0, Runnable) + [] == Q(s0, Runnable) && Q(s0, Sleeping) + [] == Q(s0, Sleeping);
  }

  /** Signalling nobody does nothing. */
  lemma SignalIs(clock: Clock, s: State, c: QCond)
    requires Inv(clock, s) && Legal(s, Signal(c))
    ensures var q := Q(s, CondQueue(c));
            Step(clock, s, Signal(c)) ==
              if q == [] then s
              else s.(queues := s.queues[CondQueue(c) := q[1..]][Runnable := Q(s, Runnable) + [q[0]]])
  {
  }

  /** A thread that runs again inside a call returns from it, holding the mutex if it was locking one, unless
      it was waiting: then it takes the mutex as qthread_mutex_lock does. */
  lemma ResumeIs(clock: Clock, s: State)
    requires Inv(clock, s) && Legal(s, Resume)
    ensures var t := s.current; var i := s.threads[t]; var s1 := Step(clock, s, Resume);
            match i.context
            case Waiting(c, m) => TakesMutex(clock, s, m, s1)
            case Locking(m) => s1 == s.(threads := s.threads[t := i.(context := Running, holds := i.holds + {m})])
            case _ => s1 == s.(threads := s.threads[t := i.(context := Running)])
  {
    hide Rest, TakesMutex, Schedule, LockMutex;
    HasQueues(clock, s);
    Blocked(clock, s);
    var context := s.threads[s.current].context;
    if context.Waiting? {
      LockMutexIs(clock, s, context.m);
    }
  }

  lemma Blocked(clock: Clock, s: State)
    requires Inv(clock, s) && s.current != null
    ensures var x := s.threads[s.current].context;
            && (x.Waiting? ==> x.m in s.mutexes)
            && (x.Joining? ==> x.target in s.threads && s.threads[x.target].dead)
  {
    assert ThreadOK(s, s.current);
  }

  /** So every resumed call returns, or waits for its mutex. */
  lemma ResumeReturns(clock: Clock, s: State)
    requires Inv(clock, s) && Legal(s, Resume)
    ensures var t := s.current; var x := s.threads[t].context; var s1 := Step(clock, s, Resume);
            t in s1.threads
            && ((s1.current == t && s1.threads[t].context == Running)
                || (x.Waiting? && s.mutexes[x.m].locked && s1.threads[t].context == Locking(x.m)))
  {
    hide Step, Rest;
    ResumeIs(clock, s);
    Blocked(clock, s);
  }

  /** A new thread is alive, joined by nobody, last in the run queue; the caller goes on. */
  lemma CreateIs(clock: Clock, s: State, n: QThread, r0: int, t0: int)
    requires Inv(clock, s) && Legal(s, Create(n, r0, t0))
    ensures var s1 := Step(clock, s, Create(n, r0, t0));
            && s1 == s.(threads := s1.threads, queues := s1.queues)
            && s1.threads == s.threads[n := ThreadInfo(false, null, r0, t0, Ready, {})]
            && s1.queues == s.queues[Runnable := Q(s, Runnable) + [n]]
  {
  }

  /** A new mutex is free and has no waiters; a new condition variable has none. */
  lemma NewIs(clock: Clock, s: State)
    requires Inv(clock, s)
    ensures forall m | Legal(s, NewMutex(m)) ::
              Step(clock, s, NewMutex(m)) == s.(mutexes := s.mutexes[m := MutexInfo(false, null)],
                                                queues := s.queues[MutexQueue(m) := []])
    ensures forall c | Legal(s, NewCond(c)) :: Step(clock, s, NewCond(c)) == s.(queues := s.queues[CondQueue(c) := []])
  {
  }
}
