/** What holds over whole runs of the thread library, whichever calls the threads make. */
module ThreadRuns {
  import opened ThreadModel
  import opened ThreadInvariants
  import opened ThreadSteps

  // ---------------------------------------------------------------------------------------
  // What one step can change.

  /** What an entry point does before it calls schedule, and whether it does call it. */
  datatype Prepared = Returns(s: State) | Leaves(s: State, kind: Kind)

  function PrepareLock(s: State, m: QMutex): Prepared
    requires s.current != null
  {
    if !Mutex(s, m).locked then Returns(TakeMutex(s, s.current, m))
    else Leaves(SetContext(PushBack(s, MutexQueue(m), s.current), s.current, Locking(m)), ForWait)
  }

  function PrepareJoin(s: State, target: QThread): Prepared
    requires s.current != null
  {
    if Info(s, target).dead then Returns(SetContext(s, s.current, Running))
    else Leaves(SetContext(s, s.current, Joining(target)), ForWait)
  }

  ghost function Prepare(clock: Clock, s: State, op: Op): Prepared
    requires s.current != null
  {
    var t := s.current;
    match op
    case Yield => Leaves(SetContext(s, t, Ready), ForYield)
    case Exit(v) => Leaves(MarkExited(s, t, v), ForExit)
    case Join(target) => PrepareJoin(SetWaiter(s, target, t), target)
    case Usleep(usecs) => Leaves(StartSleep(clock, s, t, usecs), ForSleep)
    case Lock(m) => PrepareLock(s, m)
    case Wait(c, m) => Leaves(StartWait(s, t, c, m), ForWait)
    case Resume =>
      (match Info(s, t).context
       case Waiting(c, m) => PrepareLock(s, m)
       case Joining(target) => PrepareJoin(s, target)
       case _ => Returns(Step(clock, s, op)))
    case _ => Returns(Step(clock, s, op))
  }

  /** Whether the step calls schedule. */
  ghost predicate Schedules(clock: Clock, s: State, op: Op)
    requires s.current != null
  {
    Prepare(clock, s, op).Leaves?
  }

  lemma SyncSplits(clock: Clock, s: State, op: Op)
    requires s.current != null && HasScheduler(s) && OnSync(op)
    ensures var p := Prepare(clock, s, op);
            && p.s.current == s.current
            && Step(clock, s, op) == if p.Leaves? then Schedule(clock, p.s, p.kind) else p.s
  {
    hide Schedule, BroadcastCond;
    match op
    case Broadcast(c) => BroadcastShape(s, c);
    case _ =>
  }

  lemma OtherSplits(clock: Clock, s: State, op: Op)
    requires s.current != null && HasScheduler(s) && !OnSync(op)
    ensures var p := Prepare(clock, s, op);
            && p.s.current == s.current
            && Step(clock, s, op) == if p.Leaves? then Schedule(clock, p.s, p.kind) else p.s
  {
    hide Schedule, BroadcastCond;
  }

  lemma StepSplits(clock: Clock, s: State, op: Op)
    requires s.current != null && HasScheduler(s)
    ensures var p := Prepare(clock, s, op);
            && p.s.current == s.current
            && Step(clock, s, op) == if p.Leaves? then Schedule(clock, p.s, p.kind) else p.s
  {
    hide Step, Prepare, Schedule;
    if OnSync(op) {
      SyncSplits(clock, s, op);
    } else {
      OtherSplits(clock, s, op);
    }
  }

  /** The loop of qthread_cond_broadcast makes every waiter runnable, in order, and empties the
      queue. */
  lemma {:induction false} BroadcastShape(s: State, c: QCond)
    requires Runnable in s.queues
    ensures var q := Q(s, CondQueue(c));
            BroadcastCond(s, c) ==
              if q == [] then s
              else s.(queues := s.queues[CondQueue(c) := []][Runnable := Q(s, Runnable) + q])
    decreases |Q(s, CondQueue(c))|
  {
    var q := Q(s, CondQueue(c));
    if q != [] {
      BroadcastShape(SignalCond(s, c), c);
      assert Q(s, Runnable) + q == (Q(s, Runnable) + [q[0]]) + q[1..];
      if |q| == 1 {
        assert q[1..] == [] && Q(s, Runnable) + q == Q(s, Runnable) + [q[0]];
      }
    }
  }

  ghost predicate HasScheduler(s: State) {
    Sleeping in s.queues && Runnable in s.queues
  }

  lemma HasQueues(clock: Clock, s: State)
    requires Rest(clock, s)
    ensures HasScheduler(s)
  {
  }

  lemma WakeFrame(clock: Clock, s: State)
    requires HasScheduler(s)
    ensures var s1 := WakeIfIdle(clock, s);
            && s1 == s.(ticks := s1.ticks, queues := s1.queues) && s1.ticks >= s.ticks
            && HasScheduler(s1)
            && (forall n | n != Runnable && n != Sleeping :: Q(s1, n) == Q(s, n))
            && (Q(s, Runnable) != [] ==> s1 == s)
  {
    if Q(s, Runnable) == [] && Q(s, Sleeping) != [] {
      var r := WakeShape(clock, s);
    }
  }

  lemma ParkFrame(s: State, kind: Kind, t: QThread)
    requires HasScheduler(s)
    ensures var s1 := Park(s, kind, t);
            && s1 == s.(queues := s1.queues) && HasScheduler(s1)
            && (forall n | n != Runnable && n != Sleeping :: Q(s1, n) == Q(s, n))
  {
  }

  lemma SwitchFrame(s: State, old_: QThread?)
    requires HasScheduler(s)
    ensures var s1 := SwitchRunnable(s, old_);
            && s1.threads == s.threads && s1.mutexes == s.mutexes && s1.ticks == s.ticks
            && (forall n | n != Runnable :: Q(s1, n) == Q(s, n))
  {
  }

  /** schedule moves threads between the run queue, the sleeping set and the processor only. */
  lemma ScheduleFrame(clock: Clock, s: State, kind: Kind)
    requires HasScheduler(s) && s.current != null
    ensures var s1 := Schedule(clock, s, kind);
            && s1.threads == s.threads && s1.mutexes == s.mutexes && s1.ticks >= s.ticks
            && (forall n | n != Runnable && n != Sleeping :: Q(s1, n) == Q(s, n))
  {
    hide WakeIfIdle, Park, SwitchRunnable, Q, HasScheduler;
    WakeFrame(clock, s);
    var s1 := if kind == ForExit then WakeIfIdle(clock, s) else s;
    ParkFrame(s1, kind, s.current);
    var s2 := Park(s1, kind, s.current);
    WakeFrame(clock, s2);
    SwitchFrame(WakeIfIdle(clock, s2), s.current);
  }

  /** A runnable thread that is first in line is the next to run; the others move up. */
  lemma ScheduleAdvances(clock: Clock, s: State, kind: Kind)
    requires HasScheduler(s) && s.current != null && Q(s, Runnable) != []
    ensures var s1 := Schedule(clock, s, kind);
            && s1.current == Q(s, Runnable)[0]
            && Q(s, Runnable)[1..] <= Q(s1, Runnable)
  {
  }

  /** The calls about mutexes and condition variables, and going on inside them. */
  predicate OnSync(op: Op) {
    op.Lock? || op.Unlock? || op.Wait? || op.Signal? || op.Broadcast? || op.Resume?
  }

  /** Those in which the running thread takes a mutex, or goes on. */
  predicate Takes(op: Op) {
    op.Lock? || op.Resume?
  }

  /** Nobody in the run queue loses his place. */
  ghost predicate QueuesKept(s: State, s1: State) {
    HasScheduler(s1) && s.ticks <= s1.ticks && Q(s, Runnable) <= Q(s1, Runnable)
  }

  /** The records of threads that are not running change only in the waiter. */
  predicate RecordsKept(s: State, s1: State) {
    && s.threads.Keys <= s1.threads.Keys
    && (forall u | u in s.threads && u != s.current ::
          s1.threads[u] == s.threads[u].(waiter := s1.threads[u].waiter))
  }

  lemma TakingKeepsQueues(clock: Clock, s: State, op: Op)
    requires HasScheduler(s) && Legal(s, op) && Takes(op)
    ensures QueuesKept(s, Prepare(clock, s, op).s)
  {
    hide Schedule, WakeLoop, BroadcastCond;
  }

  lemma PassingKeepsQueues(clock: Clock, s: State, op: Op)
    requires HasScheduler(s) && Legal(s, op) && OnSync(op) && !Takes(op)
    ensures QueuesKept(s, Prepare(clock, s, op).s)
  {
    hide Schedule, WakeLoop, BroadcastCond;
    match op
    case Broadcast(c) => BroadcastShape(s, c);
    case _ =>
  }

  lemma SyncKeepsQueues(clock: Clock, s: State, op: Op)
    requires HasScheduler(s) && Legal(s, op) && OnSync(op)
    ensures QueuesKept(s, Prepare(clock, s, op).s)
  {
    hide Prepare;
    if Takes(op) {
      TakingKeepsQueues(clock, s, op);
    } else {
      PassingKeepsQueues(clock, s, op);
    }
  }

  lemma OtherKeepsQueues(clock: Clock, s: State, op: Op)
    requires HasScheduler(s) && Legal(s, op) && !OnSync(op)
    ensures QueuesKept(s, Prepare(clock, s, op).s)
  {
    hide Schedule, WakeLoop, BroadcastCond;
  }

  lemma TakingKeepsRecords(clock: Clock, s: State, op: Op)
    requires HasScheduler(s) && Legal(s, op) && Takes(op)
    ensures RecordsKept(s, Prepare(clock, s, op).s)
  {
    hide Schedule, WakeLoop, BroadcastCond, Q;
  }

  lemma SignallingKeepsRecords(clock: Clock, s: State, op: Op)
    requires HasScheduler(s) && Legal(s, op) && (op.Signal? || op.Broadcast?)
    ensures RecordsKept(s, Prepare(clock, s, op).s)
  {
    hide Schedule, WakeLoop, BroadcastCond, Q;
    match op
    case Broadcast(c) => BroadcastShape(s, c);
    case _ =>
  }

  lemma ReleaseRecords(s: State, t: QThread, m: QMutex)
    ensures var s1 := ReleaseMutex(s, t, m);
            && s1.threads == SetInfo(s, t, Info(s, t).(holds := Info(s, t).holds - {m})).threads
            && s1.current == s.current
  {
  }

  lemma ReleasingKeepsRecords(clock: Clock, s: State, op: Op)
    requires HasScheduler(s) && Legal(s, op) && (op.Unlock? || op.Wait?)
    ensures RecordsKept(s, Prepare(clock, s, op).s)
  {
    hide Schedule, WakeLoop, BroadcastCond, Q, ReleaseMutex;
    ReleaseRecords(s, s.current, op.m);
  }

  lemma PassingKeepsRecords(clock: Clock, s: State, op: Op)
    requires HasScheduler(s) && Legal(s, op) && OnSync(op) && !Takes(op)
    ensures RecordsKept(s, Prepare(clock, s, op).s)
  {
    hide Prepare, RecordsKept;
    if op.Signal? || op.Broadcast? {
      SignallingKeepsRecords(clock, s, op);
    } else {
      ReleasingKeepsRecords(clock, s, op);
    }
  }

  lemma SyncKeepsRecords(clock: Clock, s: State, op: Op)
    requires HasScheduler(s) && Legal(s, op) && OnSync(op)
    ensures RecordsKept(s, Prepare(clock, s, op).s)
  {
    hide Prepare;
    if Takes(op) {
      TakingKeepsRecords(clock, s, op);
    } else {
      PassingKeepsRecords(clock, s, op);
    }
  }

  lemma OtherKeepsRecords(clock: Clock, s: State, op: Op)
    requires HasScheduler(s) && Legal(s, op) && !OnSync(op)
    ensures RecordsKept(s, Prepare(clock, s, op).s)
  {
    hide Schedule, WakeLoop, BroadcastCond, Q;
  }

  /** Before it calls schedule a step only appends to the run queue, and touches the records of
      the other threads only in the waiter of one it joins. */
  lemma PrepareFrame(clock: Clock, s: State, op: Op)
    requires HasScheduler(s) && Legal(s, op)
    ensures QueuesKept(s, Prepare(clock, s, op).s) && RecordsKept(s, Prepare(clock, s, op).s)
  {
    hide Prepare, QueuesKept, RecordsKept;
    if OnSync(op) {
      SyncKeepsQueues(clock, s, op);
      SyncKeepsRecords(clock, s, op);
    } else {
      OtherKeepsQueues(clock, s, op);
      OtherKeepsRecords(clock, s, op);
    }
  }

  /** The record of a thread that is not running changes only in its waiter, when it is joined. */
  lemma StepFrame(clock: Clock, s: State, op: Op)
    requires Inv(clock, s) && Legal(s, op)
    ensures var s1 := Step(clock, s, op);
            && s.ticks <= s1.ticks
            && s.threads.Keys <= s1.threads.Keys
            && (forall u | u in s.threads && u != s.current ::
                  s1.threads[u] == s.threads[u].(waiter := s1.threads[u].waiter))
  {
    hide Schedule, Prepare, Step, Rest;
    HasQueues(clock, s);
    StepSplits(clock, s, op);
    PrepareFrame(clock, s, op);
    var p := Prepare(clock, s, op);
    if p.Leaves? {
      ScheduleFrame(clock, p.s, p.kind);
    }
  }

  lemma StepAdvances(clock: Clock, s: State, op: Op)
    requires Inv(clock, s) && Legal(s, op)
    ensures var s1 := Step(clock, s, op); var q := Q(s, Runnable);
            if !Schedules(clock, s, op) then s1.current == s.current && q <= Q(s1, Runnable)
            else q != [] ==> s1.current == q[0] && q[1..] <= Q(s1, Runnable)
  {
    hide Schedule, Prepare, Step, Rest;
    HasQueues(clock, s);
    StepSplits(clock, s, op);
    PrepareFrame(clock, s, op);
    var p := Prepare(clock, s, op);
    if p.Leaves? && Q(s, Runnable) != [] {
      ScheduleAdvances(clock, p.s, p.kind);
      assert Q(s, Runnable)[1..] <= Q(p.s, Runnable)[1..];
    }
  }

  // ---------------------------------------------------------------------------------------
  // Bounded waiting.

  ghost function ScheduleCalls(clock: Clock, s: State, ops: seq<Op>): nat
    requires LegalRun(clock, s, ops)
    decreases |ops|
  {
    if ops == [] then 0
    else (if Schedules(clock, s, ops[0]) then 1 else 0)
         + ScheduleCalls(clock, Step(clock, s, ops[0]), ops[1..])
  }

  lemma {:induction false} StaysCurrent(clock: Clock, s: State, ops: seq<Op>)
    requires Inv(clock, s) && LegalRun(clock, s, ops) && ScheduleCalls(clock, s, ops) == 0
    ensures Exec(clock, s, ops).current == s.current
    decreases |ops|
  {
    if ops != [] {
      StepKeeps(clock, s, ops[0]);
      StepAdvances(clock, s, ops[0]);
      StaysCurrent(clock, Step(clock, s, ops[0]), ops[1..]);
    }
  }

  /** A thread at place `k` of the run queue moves up with every call of schedule and becomes the
      running thread with the (k+1)-th, whatever else happens in between. */
  lemma {:induction false} BoundedWaiting(clock: Clock, s: State, ops: seq<Op>, k: nat)
    requires Inv(clock, s) && LegalRun(clock, s, ops) && k < |Q(s, Runnable)|
    ensures var s1 := Exec(clock, s, ops); var n := ScheduleCalls(clock, s, ops);
            && (n <= k ==> k - n < |Q(s1, Runnable)| && Q(s1, Runnable)[k - n] == Q(s, Runnable)[k])
            && (n == k + 1 ==> s1.current == Q(s, Runnable)[k])
    decreases |ops|
  {
    hide Inv, Step, Schedules;
    if ops != [] {
      var s1 := Step(clock, s, ops[0]);
      StepKeeps(clock, s, ops[0]);
      StepAdvances(clock, s, ops[0]);
      if !Schedules(clock, s, ops[0]) {
        BoundedWaiting(clock, s1, ops[1..], k);
      } else if k > 0 {
        assert Q(s, Runnable)[1..][k - 1] == Q(s, Runnable)[k];
        BoundedWaiting(clock, s1, ops[1..], k - 1);
      } else if ScheduleCalls(clock, s1, ops[1..]) == 0 {
        StaysCurrent(clock, s1, ops[1..]);
      }
    }
  }

  // ---------------------------------------------------------------------------------------
  // Every thread in exactly one place.

  datatype Place = AtCpu | InQueue(n: QueueName) | AsWaiterOf(target: QThread) | Gone

  ghost predicate IsAt(s: State, t: QThread, p: Place) {
    match p
    case AtCpu => t == s.current
    case InQueue(n) => n in s.queues && t in s.queues[n]
    case AsWaiterOf(u) => u in s.threads && !s.threads[u].dead && s.threads[u].waiter == t
    case Gone => t in s.threads && s.threads[t].dead
  }

  /** In a state that keeps the invariant every thread is in one place only: running, at one
      place of one queue, the waiter of one live thread, or gone. */
  lemma OnePlace(clock: Clock, s: State, t: QThread) returns (p: Place)
    requires Inv(clock, s) && t in s.threads
    ensures IsAt(s, t, p) && forall p' :: IsAt(s, t, p') ==> p' == p
    ensures p.InQueue? ==> exists i :: PlaceInQueue(s.queues[p.n], t, i)
    ensures p.InQueue? ==> forall i, j ::
              PlaceInQueue(s.queues[p.n], t, i) && PlaceInQueue(s.queues[p.n], t, j) ==> i == j
  {
    assert ThreadOK(s, t);
    forall n | n in s.queues && t in s.queues[n] ensures EntryOK(clock, s, n, t) {}
    forall u | u in s.threads && !s.threads[u].dead && s.threads[u].waiter == t
      ensures s.threads[t].context == Joining(u) && s.threads[t].context != Exited
    {
      assert ThreadOK(s, u);
    }
    if t == s.current {
      p := AtCpu;
    } else if s.threads[t].dead {
      p := Gone;
    } else if Queued(s, t) {
      var n :| n in s.queues && t in s.queues[n];
      p := InQueue(n);
      assert NoDuplicates(s.queues[n]);
      var i :| 0 <= i < |s.queues[n]| && s.queues[n][i] == t;
      assert PlaceInQueue(s.queues[n], t, i);
    } else {
      assert Accounted(s, t);
      p := AsWaiterOf(s.threads[t].context.target);
    }
  }

  predicate PlaceInQueue(q: seq<QThread>, t: QThread, i: int) {
    0 <= i < |q| && q[i] == t
  }

  /** The same of every state of every run of a program. */
  lemma NoThreadLost(clock: Clock, main: QThread, r0: int, t0: int, ops: seq<Op>, t: QThread) returns (p: Place)
    requires LegalRun(clock, Init(main, r0, t0), ops)
    requires t == main || exists i :: 0 <= i < |ops| && ops[i].Create? && ops[i].t == t
    ensures var s := Exec(clock, Init(main, r0, t0), ops);
            t in s.threads && IsAt(s, t, p) && forall p' :: IsAt(s, t, p') ==> p' == p
    ensures var s := Exec(clock, Init(main, r0, t0), ops);
            p.InQueue? ==> exists i :: PlaceInQueue(s.queues[p.n], t, i)
    ensures var s := Exec(clock, Init(main, r0, t0), ops);
            p.InQueue? ==> forall i, j ::
              PlaceInQueue(s.queues[p.n], t, i) && PlaceInQueue(s.queues[p.n], t, j) ==> i == j
  {
    var s := Init(main, r0, t0);
    InitHolds(clock, main, r0, t0);
    RunKeeps(clock, s, ops);
    CreatedStay(clock, s, ops, t);
    p := OnePlace(clock, Exec(clock, s, ops), t);
  }

  lemma {:induction false} CreatedStay(clock: Clock, s: State, ops: seq<Op>, t: QThread)
    requires Inv(clock, s) && LegalRun(clock, s, ops)
    requires t in s.threads || exists i :: 0 <= i < |ops| && ops[i].Create? && ops[i].t == t
    ensures t in Exec(clock, s, ops).threads
    decreases |ops|
  {
    hide Inv;
    if ops != [] {
      var s1 := Step(clock, s, ops[0]);
      StepKeeps(clock, s, ops[0]);
      StepFrame(clock, s, ops[0]);
      if t !in s1.threads {
        var i :| 0 <= i < |ops| && ops[i].Create? && ops[i].t == t;
        assert i > 0;
        assert ops[1..][i - 1] == ops[i];
      }
      CreatedStay(clock, s1, ops[1..], t);
    }
  }

  // ---------------------------------------------------------------------------------------
  // Mutual exclusion.

  /** Whatever the calls, no two threads hold a mutex; it is marked locked exactly when it has an
      owner, and nobody waits for an unlocked one. */
  lemma MutualExclusion(clock: Clock, main: QThread, r0: int, t0: int, ops: seq<Op>, m: QMutex)
    requires LegalRun(clock, Init(main, r0, t0), ops)
    ensures var s := Exec(clock, Init(main, r0, t0), ops);
            && (forall t, u | t in s.threads && u in s.threads ::
                  m in s.threads[t].holds && m in s.threads[u].holds ==> t == u)
            && (m in s.mutexes ==>
                  && (s.mutexes[m].locked <==> s.mutexes[m].owner != null)
                  && (Q(s, MutexQueue(m)) != [] ==> s.mutexes[m].locked)
                  && (forall t | t in s.threads && m in s.threads[t].holds :: s.mutexes[m].owner == t))
  {
    var s := Init(main, r0, t0);
    InitHolds(clock, main, r0, t0);
    RunKeeps(clock, s, ops);
    var s1 := Exec(clock, s, ops);
    assert forall t | t in s1.threads :: ThreadOK(s1, t);
    assert m in s1.mutexes ==> MutexOK(s1, m);
  }

  predicate Releases(op: Op, m: QMutex) {
    op == Unlock(m) || (op.Wait? && op.m == m)
  }

  function Releasings(ops: seq<Op>, m: QMutex): nat {
    if ops == [] then 0 else (if Releases(ops[0], m) then 1 else 0) + Releasings(ops[1..], m)
  }

  /** A releasing step hands the mutex to the first waiter, still locked; no other step changes
      the owner of an owned mutex, and waiters only join at the end. */
  lemma MutexAdvances(clock: Clock, s: State, op: Op, m: QMutex)
    requires Inv(clock, s) && Legal(s, op) && m in s.mutexes
    ensures var s1 := Step(clock, s, op); var q := Q(s, MutexQueue(m));
            && m in s1.mutexes
            && if !Releases(op, m) then
                 && q <= Q(s1, MutexQueue(m))
                 && (s.mutexes[m].owner != null ==> s1.mutexes[m] == s.mutexes[m])
               else q != [] ==>
                 && s1.mutexes[m] == MutexInfo(true, q[0])
                 && q[1..] <= Q(s1, MutexQueue(m))
  {
    hide Schedule, Prepare, Step, Rest;
    HasQueues(clock, s);
    if op.Unlock? || op.Wait? {
      HeldIsKnown(clock, s, op.m);
    }
    KnownMutexOK(clock, s, m);
    StepSplits(clock, s, op);
    PrepareMutexes(clock, s, op, m);
    var p := Prepare(clock, s, op);
    PrepareFrame(clock, s, op);
    if p.Leaves? {
      ScheduleFrame(clock, p.s, p.kind);
    }
  }

  lemma KnownMutexOK(clock: Clock, s: State, m: QMutex)
    requires Rest(clock, s) && m in s.mutexes
    ensures MutexOK(s, m)
  {
  }

  /** What MutexAdvances says, before schedule is called. */
  predicate MutexAdvanced(s: State, s1: State, op: Op, m: QMutex) {
    var q := Q(s, MutexQueue(m));
    && m in s.mutexes && m in s1.mutexes
    && if !Releases(op, m) then
         && q <= Q(s1, MutexQueue(m))
         && (s.mutexes[m].owner != null ==> s1.mutexes[m] == s.mutexes[m])
       else q != [] ==>
         && s1.mutexes[m] == MutexInfo(true, q[0])
         && q[1..] <= Q(s1, MutexQueue(m))
  }

  lemma SyncMutexes(clock: Clock, s: State, op: Op, m: QMutex)
    requires HasScheduler(s) && m in s.mutexes && MutexOK(s, m) && Legal(s, op)
    requires OnSync(op) && !op.Unlock? && !op.Wait?
    ensures MutexAdvanced(s, Prepare(clock, s, op).s, op, m)
  {
    hide Schedule, WakeLoop, BroadcastCond, ReleaseMutex;
    match op
    case Broadcast(c) => BroadcastShape(s, c);
    case _ =>
  }

  lemma ReleaseAdvances(s: State, t: QThread, m0: QMutex, m: QMutex)
    requires HasScheduler(s) && m in s.mutexes && MutexOK(s, m) && m0 in s.mutexes
    ensures MutexAdvanced(s, ReleaseMutex(s, t, m0), Unlock(m0), m)
  {
  }

  lemma ReleasingMutexes(clock: Clock, s: State, op: Op, m: QMutex)
    requires HasScheduler(s) && m in s.mutexes && MutexOK(s, m) && Legal(s, op) && (op.Unlock? || op.Wait?)
    requires op.m in s.mutexes
    ensures MutexAdvanced(s, Prepare(clock, s, op).s, op, m)
  {
    hide Schedule, WakeLoop, BroadcastCond, ReleaseMutex;
    ReleaseAdvances(s, s.current, op.m, m);
  }

  lemma OtherMutexes(clock: Clock, s: State, op: Op, m: QMutex)
    requires HasScheduler(s) && m in s.mutexes && MutexOK(s, m) && Legal(s, op) && !OnSync(op)
    ensures MutexAdvanced(s, Prepare(clock, s, op).s, op, m)
  {
    hide Schedule, WakeLoop, BroadcastCond, ReleaseMutex;
  }

  lemma PrepareMutexes(clock: Clock, s: State, op: Op, m: QMutex)
    requires HasScheduler(s) && m in s.mutexes && MutexOK(s, m) && Legal(s, op)
    requires op.Unlock? || op.Wait? ==> op.m in s.mutexes
    ensures MutexAdvanced(s, Prepare(clock, s, op).s, op, m)
  {
    hide Prepare, MutexAdvanced;
    if op.Unlock? || op.Wait? {
      ReleasingMutexes(clock, s, op, m);
    } else if OnSync(op) {
      SyncMutexes(clock, s, op, m);
    } else {
      OtherMutexes(clock, s, op, m);
    }
  }

  lemma HeldIsKnown(clock: Clock, s: State, m: QMutex)
    requires Inv(clock, s) && s.current != null && m in s.threads[s.current].holds
    ensures m in s.mutexes
  {
    assert ThreadOK(s, s.current);
  }

  /** Hand-off is first come, first served: the thread at place `k` of the queue of a mutex owns
      it after exactly k+1 further releases, and from then on until the next one. */
  lemma {:induction false} FifoHandOff(clock: Clock, s: State, ops: seq<Op>, m: QMutex, k: nat)
    requires Inv(clock, s) && LegalRun(clock, s, ops) && m in s.mutexes && k < |Q(s, MutexQueue(m))|
    ensures var s1 := Exec(clock, s, ops); var n := Releasings(ops, m);
            && (n <= k ==>
                  k - n < |Q(s1, MutexQueue(m))| && Q(s1, MutexQueue(m))[k - n] == Q(s, MutexQueue(m))[k])
            && (n == k + 1 ==> m in s1.mutexes && s1.mutexes[m].owner == Q(s, MutexQueue(m))[k])
    decreases |ops|
  {
    hide Inv, Step;
    if ops != [] {
      var s1 := Step(clock, s, ops[0]);
      StepKeeps(clock, s, ops[0]);
      MutexAdvances(clock, s, ops[0], m);
      if !Releases(ops[0], m) {
        FifoHandOff(clock, s1, ops[1..], m, k);
      } else if k > 0 {
        assert Q(s, MutexQueue(m))[1..][k - 1] == Q(s, MutexQueue(m))[k];
        FifoHandOff(clock, s1, ops[1..], m, k - 1);
      } else if Releasings(ops[1..], m) == 0 {
        OwnerKeeps(clock, s1, ops[1..], m);
      }
    }
  }

  /** From the hand-off until the new owner releases the mutex itself, it stays locked and owned:
      no third thread can take it in between. */
  lemma {:induction false} OwnerKeeps(clock: Clock, s: State, ops: seq<Op>, m: QMutex)
    requires Inv(clock, s) && LegalRun(clock, s, ops) && m in s.mutexes && s.mutexes[m].owner != null
    requires Releasings(ops, m) == 0
    ensures var s1 := Exec(clock, s, ops); m in s1.mutexes && s1.mutexes[m] == s.mutexes[m]
    decreases |ops|
  {
    hide Inv;
    if ops != [] {
      StepKeeps(clock, s, ops[0]);
      MutexAdvances(clock, s, ops[0], m);
      OwnerKeeps(clock, Step(clock, s, ops[0]), ops[1..], m);
    }
  }

  // ---------------------------------------------------------------------------------------
  // Condition variables.

  /** How many signals on `c` the run makes; none of its steps is a broadcast on it. */
  function Signals(ops: seq<Op>, c: QCond): nat {
    if ops == [] then 0 else (if ops[0] == Signal(c) then 1 else 0) + Signals(ops[1..], c)
  }

  lemma CondAdvances(clock: Clock, s: State, op: Op, c: QCond)
    requires Inv(clock, s) && Legal(s, op)
    ensures var s1 := Step(clock, s, op); var q := Q(s, CondQueue(c));
            && (op == Broadcast(c) ==>
                  Q(s1, CondQueue(c)) == [] && Q(s1, Runnable) == Q(s, Runnable) + q)
            && (op == Signal(c) && q != [] ==>
                  Q(s1, CondQueue(c)) == q[1..] && Q(s1, Runnable) == Q(s, Runnable) + [q[0]])
            && (op != Broadcast(c) && op != Signal(c) ==> q <= Q(s1, CondQueue(c)))
            && (op.Wait? && op.c == c ==> Q(s1, CondQueue(c)) == q + [s.current])
  {
    hide Schedule, Prepare, Step, Rest;
    HasQueues(clock, s);
    StepSplits(clock, s, op);
    PrepareConds(clock, s, op, c);
    PrepareFrame(clock, s, op);
    var p := Prepare(clock, s, op);
    if p.Leaves? {
      ScheduleFrame(clock, p.s, p.kind);
      NeverLeaves(clock, s, op);
    }
  }

  lemma NeverLeaves(clock: Clock, s: State, op: Op)
    requires s.current != null
    ensures op.Signal? || op.Broadcast? ==> Prepare(clock, s, op).Returns?
  {
  }

  /** What CondAdvances says, before schedule is called. */
  predicate CondAdvanced(s: State, s1: State, op: Op, c: QCond) {
    var q := Q(s, CondQueue(c));
    && (op == Broadcast(c) ==>
          Q(s1, CondQueue(c)) == [] && Q(s1, Runnable) == Q(s, Runnable) + q)
    && (op == Signal(c) && q != [] ==>
          Q(s1, CondQueue(c)) == q[1..] && Q(s1, Runnable) == Q(s, Runnable) + [q[0]])
    && (op != Broadcast(c) && op != Signal(c) ==> q <= Q(s1, CondQueue(c)))
    && (op.Wait? && op.c == c ==> Q(s1, CondQueue(c)) == q + [s.current])
  }

  lemma TakingConds(clock: Clock, s: State, op: Op, c: QCond)
    requires HasScheduler(s) && Legal(s, op) && Takes(op)
    ensures CondAdvanced(s, Prepare(clock, s, op).s, op, c)
  {
    hide Schedule, WakeLoop, BroadcastCond;
  }

  lemma SignallingConds(clock: Clock, s: State, op: Op, c: QCond)
    requires HasScheduler(s) && Legal(s, op) && (op.Signal? || op.Broadcast?)
    ensures CondAdvanced(s, Prepare(clock, s, op).s, op, c)
  {
    hide Schedule, WakeLoop, BroadcastCond;
    match op
    case Broadcast(d) => BroadcastShape(s, d);
    case _ =>
  }

  lemma ReleasingConds(clock: Clock, s: State, op: Op, c: QCond)
    requires HasScheduler(s) && Legal(s, op) && (op.Unlock? || op.Wait?)
    ensures CondAdvanced(s, Prepare(clock, s, op).s, op, c)
  {
    hide Schedule, WakeLoop, BroadcastCond;
  }

  lemma PassingConds(clock: Clock, s: State, op: Op, c: QCond)
    requires HasScheduler(s) && Legal(s, op) && OnSync(op) && !Takes(op)
    ensures CondAdvanced(s, Prepare(clock, s, op).s, op, c)
  {
    hide Prepare;
    if op.Signal? || op.Broadcast? {
      SignallingConds(clock, s, op, c);
    } else {
      ReleasingConds(clock, s, op, c);
    }
  }

  lemma SyncConds(clock: Clock, s: State, op: Op, c: QCond)
    requires HasScheduler(s) && Legal(s, op) && OnSync(op)
    ensures CondAdvanced(s, Prepare(clock, s, op).s, op, c)
  {
    hide Prepare;
    if Takes(op) {
      TakingConds(clock, s, op, c);
    } else {
      PassingConds(clock, s, op, c);
    }
  }

  lemma OtherConds(clock: Clock, s: State, op: Op, c: QCond)
    requires HasScheduler(s) && Legal(s, op) && !OnSync(op)
    ensures CondAdvanced(s, Prepare(clock, s, op).s, op, c)
  {
    hide Schedule, WakeLoop, BroadcastCond;
  }

  lemma PrepareConds(clock: Clock, s: State, op: Op, c: QCond)
    requires HasScheduler(s) && Legal(s, op)
    ensures CondAdvanced(s, Prepare(clock, s, op).s, op, c)
  {
    hide Prepare, CondAdvanced;
    if OnSync(op) {
      SyncConds(clock, s, op, c);
    } else {
      OtherConds(clock, s, op, c);
    }
  }

  /** No wake-up is lost and none overtakes: a thread at place `k` of the queue of a condition
      variable stays in it, moving up, until the (k+1)-th signal or a broadcast. */
  lemma {:induction false} WaitsForSignal(clock: Clock, s: State, ops: seq<Op>, c: QCond, k: nat)
    requires Inv(clock, s) && LegalRun(clock, s, ops) && k < |Q(s, CondQueue(c))|
    requires Broadcast(c) !in ops && Signals(ops, c) <= k
    ensures var q := Q(Exec(clock, s, ops), CondQueue(c)); var n := Signals(ops, c);
            k - n < |q| && q[k - n] == Q(s, CondQueue(c))[k]
    decreases |ops|
  {
    hide Inv, WakeIfIdle, SetInfo, Step;
    if ops != [] {
      var s1 := Step(clock, s, ops[0]);
      StepKeeps(clock, s, ops[0]);
      CondAdvances(clock, s, ops[0], c);
      if ops[0] == Signal(c) {
        assert Q(s, CondQueue(c))[1..][k - 1] == Q(s, CondQueue(c))[k];
        WaitsForSignal(clock, s1, ops[1..], c, k - 1);
      } else {
        WaitsForSignal(clock, s1, ops[1..], c, k);
      }
    }
  }

  /** The (k+1)-th signal since makes exactly that thread runnable; a broadcast before that makes it
      runnable with all that are left, at its place among them. */
  lemma WokenInTurn(clock: Clock, s: State, ops: seq<Op>, c: QCond, k: nat)
    requires Inv(clock, s) && LegalRun(clock, s, ops) && k < |Q(s, CondQueue(c))|
    requires Broadcast(c) !in ops && Signals(ops, c) <= k
    ensures var s1 := Exec(clock, s, ops); var w := Q(s, CondQueue(c))[k];
            Legal(s1, Signal(c)) && Signals(ops, c) == k ==>
              Q(Step(clock, s1, Signal(c)), Runnable) == Q(s1, Runnable) + [w]
              && w !in Q(Step(clock, s1, Signal(c)), CondQueue(c))
    ensures var s1 := Exec(clock, s, ops); var q := Q(s1, CondQueue(c)); var n := Signals(ops, c);
            Legal(s1, Broadcast(c)) ==>
              Q(Step(clock, s1, Broadcast(c)), Runnable) == Q(s1, Runnable) + q
              && k - n < |q| && q[k - n] == Q(s, CondQueue(c))[k]
  {
    hide Step, Exec;
    var s1 := Exec(clock, s, ops);
    RunKeeps(clock, s, ops);
    WaitsForSignal(clock, s, ops, c, k);
    if Legal(s1, Signal(c)) {
      CondAdvances(clock, s1, Signal(c), c);
      assert NoDuplicates(s1.queues[CondQueue(c)]);
    }
    if Legal(s1, Broadcast(c)) {
      CondAdvances(clock, s1, Broadcast(c), c);
    }
  }

  /** Releasing the mutex and joining the queue of the condition variable are one step: the waiter
      is in the queue before any other thread runs. */
  lemma WaitIsAtomic(clock: Clock, s: State, c: QCond, m: QMutex)
    requires Inv(clock, s) && Legal(s, Wait(c, m))
    ensures var s1 := Step(clock, s, Wait(c, m));
            && s1.current != s.current
            && Q(s1, CondQueue(c)) == Q(s, CondQueue(c)) + [s.current]
            && m in s1.mutexes && s1.mutexes[m].owner != s.current
            && s.current in s1.threads && m !in s1.threads[s.current].holds
  {
    var s1 := Step(clock, s, Wait(c, m));
    CondAdvances(clock, s, Wait(c, m), c);
    WaitKeeps(clock, s, c, m);
    Released(clock, s, m);
    ScheduleFrame(clock, StartWait(s, s.current, c, m), ForWait);
    assert s.current in s1.queues[CondQueue(c)];
  }

  /** `t` does not return from the call it is blocked in before the end of the run. */
  ghost predicate BlockedUntilEnd(clock: Clock, s: State, ops: seq<Op>, t: QThread)
    requires LegalRun(clock, s, ops)
    decreases |ops|
  {
    ops == [] ||
    (Info(s, t).context != Running && BlockedUntilEnd(clock, Step(clock, s, ops[0]), ops[1..], t))
  }

  predicate InWaitOrLock(x: Context, m: QMutex) {
    x == Locking(m) || (x.Waiting? && x.m == m)
  }

  /** qthread_cond_wait and qthread_mutex_lock return only with the caller owning the locked mutex. */
  lemma ReturnsHolding(clock: Clock, s: State, ops: seq<Op>, t: QThread, m: QMutex)
    requires Inv(clock, s) && LegalRun(clock, s, ops) && t in s.threads
    requires InWaitOrLock(s.threads[t].context, m) && BlockedUntilEnd(clock, s, ops, t)
    ensures var s1 := Exec(clock, s, ops);
            && t in s1.threads
            && if s1.threads[t].context == Running then
                 m in s1.threads[t].holds && m in s1.mutexes && s1.mutexes[m] == MutexInfo(true, t)
               else InWaitOrLock(s1.threads[t].context, m)
  {
    hide Exec, Step, LegalRun, BlockedUntilEnd;
    RunKeeps(clock, s, ops);
    ReturnsWithMutex(clock, s, ops, t, m);
    HolderOwns(clock, Exec(clock, s, ops), t, m);
  }

  lemma HolderOwns(clock: Clock, s: State, t: QThread, m: QMutex)
    requires Inv(clock, s) && t in s.threads
    ensures m in s.threads[t].holds ==> m in s.mutexes && s.mutexes[m] == MutexInfo(true, t)
  {
    assert ThreadOK(s, t);
    assert m in s.mutexes ==> MutexOK(s, m);
  }

  lemma {:induction false} ReturnsWithMutex(clock: Clock, s: State, ops: seq<Op>, t: QThread, m: QMutex)
    requires Inv(clock, s) && LegalRun(clock, s, ops) && t in s.threads
    requires InWaitOrLock(s.threads[t].context, m) && BlockedUntilEnd(clock, s, ops, t)
    ensures var s1 := Exec(clock, s, ops);
            && t in s1.threads
            && if s1.threads[t].context == Running then m in s1.threads[t].holds
               else InWaitOrLock(s1.threads[t].context, m)
    decreases |ops|
  {
    hide Inv;
    if ops != [] {
      var s1 := Step(clock, s, ops[0]);
      StepKeeps(clock, s, ops[0]);
      StepFrame(clock, s, ops[0]);
      if t == s.current {
        ResumeTakes(clock, s, m);
      }
      if |ops| > 1 {
        assert Info(s1, t).context != Running;
        ReturnsWithMutex(clock, s1, ops[1..], t, m);
      }
    }
  }

  lemma ResumeTakes(clock: Clock, s: State, m: QMutex)
    requires Inv(clock, s) && Legal(s, Resume) && InWaitOrLock(s.threads[s.current].context, m)
    ensures var s1 := Step(clock, s, Resume); var t := s.current;
            && t in s1.threads
            && if s1.threads[t].context == Running then m in s1.threads[t].holds
               else s1.threads[t].context == Locking(m)
  {
    StepSplits(clock, s, Resume);
    var p := Prepare(clock, s, Resume);
    if p.Leaves? {
      ScheduleFrame(clock, p.s, p.kind);
    }
  }

  // ---------------------------------------------------------------------------------------
  // Sleeping.

  /** A thread that calls qthread_usleep at one clock reading runs again only once a reading that
      much later has been made. */
  lemma NoEarlyWake(clock: Clock, s: State, usecs: int, ops: seq<Op>)
    requires Inv(clock, s) && Legal(s, Usleep(usecs)) && LegalRun(clock, Step(clock, s, Usleep(usecs)), ops)
    requires Exec(clock, Step(clock, s, Usleep(usecs)), ops).current == s.current
    ensures Elapsed(clock, Exec(clock, Step(clock, s, Usleep(usecs)), ops), Reading(clock, s.ticks) + usecs)
  {
    hide Schedule, EntryOK, ThreadOK, MutexOK, Accounted;
    var s1 := Step(clock, s, Usleep(usecs));
    StepKeeps(clock, s, Usleep(usecs));
    ScheduleFrame(clock, StartSleep(clock, s, s.current, usecs), ForSleep);
    assert s1.threads[s.current].context == Asleep(Reading(clock, s.ticks) + usecs);
    AsleepUntilElapsed(clock, s1, ops, s.current, Reading(clock, s.ticks) + usecs);
  }

  lemma {:induction false} AsleepUntilElapsed(clock: Clock, s: State, ops: seq<Op>, t: QThread, d: int)
    requires Inv(clock, s) && LegalRun(clock, s, ops) && t in s.threads
    requires s.threads[t].context == Asleep(d) || Elapsed(clock, s, d)
    ensures Exec(clock, s, ops).current == t ==> Elapsed(clock, Exec(clock, s, ops), d)
    decreases |ops|
  {
    if ops != [] {
      var s1 := Step(clock, s, ops[0]);
      StepKeeps(clock, s, ops[0]);
      StepFrame(clock, s, ops[0]);
      assert s.current == t ==> Elapsed(clock, s, d);
      AsleepUntilElapsed(clock, s1, ops[1..], t, d);
    }
  }

  /** Reading `k` is the first to find the sleeper it looks at due. */
  ghost predicate FirstDue(clock: Clock, s: State, k: nat)
    requires Q(s, Sleeping) != []
  {
    var ring := Q(s, Sleeping);
    PassedOver(clock, s, ring, |ring| >= 2, k) && !NotDue(clock, s, ring, |ring| >= 2, k)
  }

  /** The place of that sleeper: with three or more the loop goes round and round, with two it goes to
      the second and stays there. */
  lemma {:induction false} ExaminedIs(n: nat, k: nat)
    requires n > 0
    ensures Examined(n, n >= 2, k) == if n == 2 then if k == 0 then 0 else 1 else k % n
    decreases k
  {
    if k > 0 && n >= 3 {
      ExaminedIs(n, k - 1);
      NextRemainder(n, k - 1);
    }
  }

  lemma NextRemainder(n: int, k: int)
    requires n > 0
    ensures (k + 1) % n == if k % n + 1 == n then 0 else k % n + 1
  {
    var q, r := k / n, k % n;
    if r + 1 == n {
      Remainder(n, q + 1, 0, k + 1);
    } else {
      Remainder(n, q, r + 1, k + 1);
    }
  }

  lemma Remainder(n: int, q: int, r: int, x: int)
    requires 0 <= r < n && x == n * q + r
    ensures x % n == r
  {
    var d := x / n - q;
    assert x == n * (x / n) + x % n;
    assert n * d == r - x % n;
    assert d >= 1 ==> n * d >= n;
    assert d <= -1 ==> n * d <= -n;
  }

  /** Which sleeper is woken, whatever their number: the one that the first successful reading looks at.
      There always is one. */
  lemma WokenSleeper(clock: Clock, s: State)
    requires Runnable in s.queues && Sleeping in s.queues && Q(s, Sleeping) != []
    ensures exists k :: FirstDue(clock, s, k)
    ensures forall k :: FirstDue(clock, s, k) ==>
              var ring := Q(s, Sleeping); var r := Examined(|ring|, |ring| >= 2, k);
              Wake(clock, s) ==
                s.(ticks := s.ticks + k + 1,
                   queues := s.queues[Sleeping := ring[r + 1..] + ring[..r]][Runnable := Q(s, Runnable) + [ring[r]]])
  {
    hide Examined, Wake;
    var ring, s1 := Q(s, Sleeping), Wake(clock, s);
    var r := WakeShape(clock, s);
    var k0 := s1.ticks - s.ticks - 1;
    assert FirstDue(clock, s, k0);
    forall k: nat | FirstDue(clock, s, k) ensures k == k0 {
      NoneBefore(clock, s, k, k0);
      NoneBefore(clock, s, k0, k);
    }
  }

  lemma NoneBefore(clock: Clock, s: State, k: nat, k0: nat)
    requires Q(s, Sleeping) != [] && FirstDue(clock, s, k) && FirstDue(clock, s, k0)
    ensures k <= k0
  {
  }

  /** With two sleepers: the first if its deadline has passed, otherwise the second. */
  lemma TwoSleepers(clock: Clock, s: State, a: QThread, b: QThread)
    requires Runnable in s.queues && Sleeping in s.queues && Q(s, Sleeping) == [a, b]
    ensures var s1 := Wake(clock, s); var w := if Info(s, a).timing <= Reading(clock, s.ticks) then a else b;
            Q(s1, Runnable) == Q(s, Runnable) + [w] && Q(s1, Sleeping) == [if w == a then b else a]
  {
    hide Examined, Wake;
    WokenSleeper(clock, s);
    var k :| FirstDue(clock, s, k);
    ExaminedIs(2, k);
    ExaminedIs(2, 0);
    if Info(s, a).timing <= Reading(clock, s.ticks) {
      assert k > 0 ==> NotDue(clock, s, [a, b], true, 0);
    } else {
      assert NotDue(clock, s, [a, b], true, 0);
    }
  }

  /** `w` has the earliest deadline of the sleepers. */
  predicate Earliest(s: State, w: QThread) {
    forall u :: u in Q(s, Sleeping) ==> Info(s, w).timing <= Info(s, u).timing
  }

  /** With any number, the sleeper woken has the earliest deadline exactly when the one at the place that
      the first successful reading looks at has. */
  lemma EarliestServed(clock: Clock, s: State, k: nat)
    requires Runnable in s.queues && Sleeping in s.queues && Q(s, Sleeping) != [] && FirstDue(clock, s, k)
    ensures var q, q1 := Q(s, Runnable), Q(Wake(clock, s), Runnable);
            |q1| == |q| + 1
            && (Earliest(s, q1[|q|]) <==> Earliest(s, Q(s, Sleeping)[WokenPlace(|Q(s, Sleeping)|, k)]))
  {
    hide Examined, Wake;
    WokenSleeper(clock, s);
    ExaminedIs(|Q(s, Sleeping)|, k);
  }

  /** See ExaminedIs. */
  function WokenPlace(n: nat, k: nat): (r: nat)
    requires n > 0
    ensures r < n
  {
    if n == 2 then if k == 0 then 0 else 1 else k % n
  }

  /** With two sleepers the earlier deadline is served exactly when it is the first's and has passed at
      the first reading, or the second's and the first's has not. */
  lemma EarlierOfTwoServed(clock: Clock, s: State, a: QThread, b: QThread)
    requires Runnable in s.queues && Sleeping in s.queues && Q(s, Sleeping) == [a, b]
    ensures var q, q1 := Q(s, Runnable), Q(Wake(clock, s), Runnable);
            |q1| == |q| + 1
            && (Earliest(s, q1[|q|]) <==>
                  if Info(s, a).timing <= Reading(clock, s.ticks) then Info(s, a).timing <= Info(s, b).timing
                  else Info(s, b).timing <= Info(s, a).timing)
  {
    hide Wake;
    TwoSleepers(clock, s, a, b);
    assert a in Q(s, Sleeping) && b in Q(s, Sleeping);
  }

  /** So the earlier sleeper can be passed over: of two that are not due the second is woken, although
      the first was to be woken before it. */
  lemma EarlierPassedOver(clock: Clock, s: State, a: QThread, b: QThread)
    requires Runnable in s.queues && Sleeping in s.queues && Q(s, Sleeping) == [a, b]
    requires Reading(clock, s.ticks) < Info(s, a).timing < Info(s, b).timing
    ensures var s1 := Wake(clock, s);
            Q(s1, Sleeping) == [a] && Q(s1, Runnable) == Q(s, Runnable) + [b] && !Earliest(s, b)
  {
    hide Wake;
    TwoSleepers(clock, s, a, b);
    assert a in Q(s, Sleeping);
  }

  // ---------------------------------------------------------------------------------------
  // Joining.

  /** What qthread_join returns, if the step is one in which it returns. */
  function JoinResult(s: State, op: Op, target: QThread): (r: (bool, int))
  {
    if s.current != null && Info(s, target).dead
       && (op == Join(target) || (op == Resume && Info(s, s.current).context == Joining(target)))
    then (true, Info(s, target).returnVal) else (false, 0)
  }

  lemma {:induction false} DeadStay(clock: Clock, s: State, ops: seq<Op>, u: QThread)
    requires Inv(clock, s) && LegalRun(clock, s, ops) && u in s.threads && s.threads[u].dead
    ensures var s1 := Exec(clock, s, ops);
            && u in s1.threads && s1.threads[u].dead && s1.threads[u].returnVal == s.threads[u].returnVal
            && s1.current != u
    decreases |ops|
  {
    if ops != [] {
      StepKeeps(clock, s, ops[0]);
      StepFrame(clock, s, ops[0]);
      assert s.current != u;
      DeadStay(clock, Step(clock, s, ops[0]), ops[1..], u);
    }
  }

  /** However long after the exit, every qthread_join of the thread returns the value it passed to
      qthread_exit. */
  lemma JoinReturnsExitValue(clock: Clock, s: State, v: int, ops: seq<Op>, op: Op)
    requires Inv(clock, s) && Legal(s, Exit(v)) && LegalRun(clock, Step(clock, s, Exit(v)), ops)
    ensures var r := JoinResult(Exec(clock, Step(clock, s, Exit(v)), ops), op, s.current);
            r.0 ==> r.1 == v
  {
    hide QueuesOK, ThreadOK;
    var s1 := Step(clock, s, Exit(v));
    StepKeeps(clock, s, Exit(v));
    ScheduleFrame(clock, MarkExited(s, s.current, v), ForExit);
    assert ThreadOK(s, s.current);
    DeadStay(clock, s1, ops, s.current);
  }

  ghost function StateBefore(clock: Clock, s: State, ops: seq<Op>, i: nat): State
    requires LegalRun(clock, s, ops) && i <= |ops|
    decreases |ops|
  {
    if i == 0 then s else StateBefore(clock, Step(clock, s, ops[0]), ops[1..], i - 1)
  }

  /** Conversely a thread found dead has called qthread_exit, and what joining it returns is the
      value it passed. */
  lemma {:induction false} DeadHasExited(clock: Clock, s: State, ops: seq<Op>, u: QThread) returns (i: nat)
    requires Inv(clock, s) && LegalRun(clock, s, ops)
    requires u in s.threads ==> !s.threads[u].dead
    requires var s1 := Exec(clock, s, ops); u in s1.threads && s1.threads[u].dead
    ensures i < |ops| && ops[i] == Exit(Exec(clock, s, ops).threads[u].returnVal)
    ensures StateBefore(clock, s, ops, i).current == u
    decreases |ops|
  {
    hide Step, Inv;
    var s1 := Step(clock, s, ops[0]);
    StepKeeps(clock, s, ops[0]);
    if u in s1.threads && s1.threads[u].dead {
      DiesByExit(clock, s, ops[0], u);
      DeadStay(clock, s1, ops[1..], u);
      i := 0;
    } else {
      i := DeadHasExited(clock, s1, ops[1..], u);
      i := i + 1;
    }
  }

  /** Only the exit of a thread marks it dead. */
  lemma PrepareDeaths(clock: Clock, s: State, op: Op, u: QThread)
    requires HasScheduler(s) && Legal(s, op) && (u in s.threads ==> !s.threads[u].dead)
    requires var s1 := Prepare(clock, s, op).s; u in s1.threads && s1.threads[u].dead
    ensures op == Exit(Prepare(clock, s, op).s.threads[u].returnVal) && s.current == u
  {
    if OnSync(op) {
      SyncKillsNobody(clock, s, op, u);
    }
  }

  lemma TakingKillsNobody(clock: Clock, s: State, op: Op, u: QThread)
    requires HasScheduler(s) && Legal(s, op) && Takes(op) && (u in s.threads ==> !s.threads[u].dead)
    ensures var s1 := Prepare(clock, s, op).s; u in s1.threads ==> !s1.threads[u].dead
  {
    hide Schedule, WakeLoop, BroadcastCond, Q;
  }

  lemma PassingKillsNobody(clock: Clock, s: State, op: Op, u: QThread)
    requires HasScheduler(s) && Legal(s, op) && OnSync(op) && !Takes(op) && (u in s.threads ==> !s.threads[u].dead)
    ensures var s1 := Prepare(clock, s, op).s; u in s1.threads ==> !s1.threads[u].dead
  {
    hide Schedule, WakeLoop, BroadcastCond, Q;
    match op
    case Broadcast(c) => BroadcastShape(s, c);
    case _ =>
  }

  lemma SyncKillsNobody(clock: Clock, s: State, op: Op, u: QThread)
    requires HasScheduler(s) && Legal(s, op) && OnSync(op) && (u in s.threads ==> !s.threads[u].dead)
    ensures var s1 := Prepare(clock, s, op).s; u in s1.threads ==> !s1.threads[u].dead
  {
    hide Prepare;
    if Takes(op) {
      TakingKillsNobody(clock, s, op, u);
    } else {
      PassingKillsNobody(clock, s, op, u);
    }
  }

  lemma DiesByExit(clock: Clock, s: State, op: Op, u: QThread)
    requires Inv(clock, s) && Legal(s, op) && (u in s.threads ==> !s.threads[u].dead)
    requires var s1 := Step(clock, s, op); u in s1.threads && s1.threads[u].dead
    ensures op == Exit(Step(clock, s, op).threads[u].returnVal) && s.current == u
  {
    hide Rest, Schedule, Prepare, Step;
    HasQueues(clock, s);
    StepSplits(clock, s, op);
    var p := Prepare(clock, s, op);
    PrepareFrame(clock, s, op);
    if p.Leaves? {
      ScheduleFrame(clock, p.s, p.kind);
    }
    PrepareDeaths(clock, s, op, u);
  }

  /** A join that blocks does not return, or even run, while its target lives; and once it runs
      again the test of its loop succeeds, so it blocks at most once. */
  lemma JoinBlocksOnce(clock: Clock, s: State, w: QThread, target: QThread)
    requires Inv(clock, s) && w in s.threads && s.threads[w].context == Joining(target)
    ensures target in s.threads
    ensures !s.threads[target].dead ==>
              s.threads[target].waiter == w && s.current != w && !Queued(s, w)
    ensures s.current == w ==>
              JoinResult(s, Resume, target).0
              && Step(clock, s, Resume) == SetContext(s, w, Running)
  {
    assert ThreadOK(s, w);
    forall n | n in s.queues && w in s.queues[n] ensures EntryOK(clock, s, n, w) {}
  }

  /** The exit of the target is what makes the blocked joiner runnable. */
  lemma ExitWakesJoiner(clock: Clock, s: State, v: int, w: QThread)
    requires Inv(clock, s) && Legal(s, Exit(v)) && s.threads[s.current].waiter == w
    ensures var s1 := Step(clock, s, Exit(v)); w == s1.current || w in Q(s1, Runnable)
  {
    var s1 := MarkExited(s, s.current, v);
    assert Q(s1, Runnable)[|Q(s1, Runnable)| - 1] == w;
    ScheduleAdvances(clock, s1, ForExit);
    assert w == Q(s1, Runnable)[0] || w in Q(s1, Runnable)[1..];
  }

  // ---------------------------------------------------------------------------------------
  // Progress.

  /** The threads the step makes runnable before it calls schedule. */
  function WokenFirst(s: State, op: Op): bool
    requires s.current != null
  {
    match op
    case Yield => true
    case Usleep(_) => true
    case Exit(_) => Info(s, s.current).waiter != null
    case Wait(_, m) => Q(s, MutexQueue(m)) != []
    case _ => false
  }

  /** schedule finds nobody to run, and the program crashes, exactly when the running thread blocks
      or exits, wakes nobody by that, and nothing is runnable or asleep. */
  lemma CrashesExactly(clock: Clock, s: State, op: Op)
    requires Inv(clock, s) && Legal(s, op)
    ensures Step(clock, s, op).current == null <==>
              Schedules(clock, s, op) && !WokenFirst(s, op)
              && Q(s, Runnable) == [] && Q(s, Sleeping) == []
  {
    hide Rest, Schedule;
    HasQueues(clock, s);
    StepSplits(clock, s, op);
    var p := Prepare(clock, s, op);
    if p.Leaves? {
      assert Q(p.s, Sleeping) == Q(s, Sleeping);
      SchedulesOrCrashes(clock, p.s, p.kind);
    }
  }

  /** Waking finds somebody if anybody sleeps. */
  lemma IdleWakes(clock: Clock, s: State)
    requires HasScheduler(s)
    ensures Q(WakeIfIdle(clock, s), Runnable) == [] <==> Q(s, Runnable) == [] && Q(s, Sleeping) == []
    ensures Q(s, Sleeping) == [] ==> WakeIfIdle(clock, s) == s
  {
    hide WakeLoop;
    if Q(s, Runnable) == [] && Q(s, Sleeping) != [] {
      var r := WakeShape(clock, s);
    }
  }

  lemma SchedulesOrCrashes(clock: Clock, s: State, kind: Kind)
    requires HasScheduler(s) && s.current != null
    ensures Schedule(clock, s, kind).current == null <==>
              kind in {ForExit, ForWait} && Q(s, Runnable) == [] && Q(s, Sleeping) == []
  {
    hide WakeIfIdle;
    IdleWakes(clock, s);
    WakeFrame(clock, s);
    var s1 := if kind == ForExit then WakeIfIdle(clock, s) else s;
    IdleWakes(clock, Park(s1, kind, s.current));
  }

  /** A crash leaves nobody runnable and nobody asleep. */
  lemma CrashLeavesNone(clock: Clock, s: State, kind: Kind)
    requires HasScheduler(s) && s.current != null && Schedule(clock, s, kind).current == null
    ensures Q(Schedule(clock, s, kind), Runnable) == [] && Q(Schedule(clock, s, kind), Sleeping) == []
  {
    SchedulesOrCrashes(clock, s, kind);
  }

  /** After a step that crashes, every thread still alive is blocked on a mutex, a condition variable
      or a join. */
  lemma CrashIsDeadlock(clock: Clock, s: State, op: Op, t: QThread)
    requires Inv(clock, s) && Legal(s, op) && Step(clock, s, op).current == null
    requires var s1 := Step(clock, s, op); t in s1.threads && !s1.threads[t].dead
    ensures var s1 := Step(clock, s, op);
            || (exists m :: m in s1.mutexes && IsAt(s1, t, InQueue(MutexQueue(m))))
            || (exists n :: n in s1.queues && n.CondQueue? && IsAt(s1, t, InQueue(n)))
            || (exists u :: u in s1.threads && IsAt(s1, t, AsWaiterOf(u)))
  {
    hide Rest, Schedule, IsAt;
    HasQueues(clock, s);
    StepKeeps(clock, s, op);
    StepSplits(clock, s, op);
    PrepareFrame(clock, s, op);
    var p := Prepare(clock, s, op);
    if p.Leaves? {
      CrashLeavesNone(clock, p.s, p.kind);
    }
    BlockedSomewhere(clock, Step(clock, s, op), t);
  }

  lemma BlockedSomewhere(clock: Clock, s: State, t: QThread)
    requires Inv(clock, s) && s.current == null && t in s.threads && !s.threads[t].dead
    requires Q(s, Runnable) == [] && Q(s, Sleeping) == []
    ensures || (exists m :: m in s.mutexes && IsAt(s, t, InQueue(MutexQueue(m))))
            || (exists n :: n in s.queues && n.CondQueue? && IsAt(s, t, InQueue(n)))
            || (exists u :: u in s.threads && IsAt(s, t, AsWaiterOf(u)))
  {
    var p := OnePlace(clock, s, t);
    match p
    case InQueue(n) =>
      if n.MutexQueue? {
        assert n.m in s.mutexes;
      }
    case AsWaiterOf(u) =>
    case _ =>
  }
}
