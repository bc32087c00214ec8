/** The cooperative thread library as a state machine.

    A context switch happens only inside `schedule`, so everything the running thread does
    between two calls of `schedule` is one atomic step.  `Step` gives that step for each entry
    point of the library; the queues are sequences here, and ThreadHeap refines them to the
    linked structures of the program.

    Threads, mutexes and condition variables are identified by the address of their structure,
    as `qthread_t` is in the program. */
module ThreadModel {

  /** Where a thread continues when it is next switched to: the model of its saved stack. */
  datatype Context =
    | Running                             // executing its own code, outside the library
    | Ready                               // new, or inside qthread_yield
    | Asleep(until: int)                  // inside qthread_usleep
    | Locking(m: QMutex)                  // inside qthread_mutex_lock, past push_back
    | Waiting(c: QCond, m: QMutex)        // inside qthread_cond_wait, about to lock m again
    | Joining(target: QThread)            // inside the loop of qthread_join
    | Exited                              // inside qthread_exit: never continues

  class QThread {
    var next: QThread?
    var dead: bool
    var waiter: QThread?
    var returnVal: int
    var timing: int
    var context: Context                  // stands for saved_stack_pointer

    /** `malloc` leaves the fields with any contents. */
    constructor (next: QThread?, dead: bool, waiter: QThread?, returnVal: int, timing: int)
      ensures this.next == next && this.dead == dead && this.waiter == waiter
      ensures this.returnVal == returnVal && this.timing == timing && context == Ready
    {
      this.next, this.dead, this.waiter := next, dead, waiter;
      this.returnVal, this.timing, context := returnVal, timing, Ready;
    }
  }

  class ThreadQ {
    var front: QThread?
    var end: QThread?
    var size: nat
    ghost var Contents: seq<QThread>

    /** While the queue is empty `front` and `end` may hold anything: the queue of a new mutex
        or condition variable has only its `size` set. */
    ghost predicate Valid()
      reads `front, `end, `size, `Contents, (set t | t in Contents)`next
    {
      && size == |Contents|
      && (size > 0 ==> front == Contents[0] && end == Contents[size - 1])
      && (forall i, j :: 0 <= i < j < size ==> Contents[i] != Contents[j])
      && (size > 0 ==> end.next == null)
      && (forall i {:trigger Contents[i].next} :: 0 <= i < size - 1 ==> Contents[i].next == Contents[i + 1])
    }

    constructor (front: QThread?, end: QThread?)
      ensures Valid() && Contents == []
    {
      this.front, this.end, size, Contents := front, end, 0, [];
    }

    /** push_back */
    method PushBack(thread: QThread)
      requires Valid() && thread !in Contents
      modifies this, thread`next, (if size == 0 then {} else {end})`next
      ensures Valid() && Contents == old(Contents) + [thread]
    {
      thread.next := null;
      if size == 0 {
        front := thread;
        end := thread;
      } else {
        end.next := thread;
        end := thread;
      }
      size := size + 1;
      Contents := Contents + [thread];
    }

    /** pop_front on an empty queue only reports the error and returns NULL; otherwise the head
        leaves, and its own `next` keeps pointing into the queue. */
    method PopFront() returns (head: QThread?)
      requires Valid()
      modifies this
      ensures Valid()
      ensures old(Contents) == [] ==> head == null && Contents == []
      ensures old(Contents) != [] ==> head == old(Contents)[0] && Contents == old(Contents)[1..]
      ensures old(Contents) != [] ==>
                head.next == if Contents == [] then null else Contents[0]
    {
      if size == 0 {
        return null;
      }
      head := front;
      front := head.next;
      size := size - 1;
      if size == 0 {
        end := null;
      }
      Contents := Contents[1..];
      assert forall i :: 0 <= i < size ==> Contents[i] == old(Contents)[i + 1];
    }
  }

  class QMutex {
    var locked: bool
    const queue: ThreadQ

    constructor (queue: ThreadQ)
      ensures !locked && this.queue == queue
    {
      locked := false;
      this.queue := queue;
    }
  }

  class QCond {
    const queue: ThreadQ

    constructor (queue: ThreadQ)
      ensures this.queue == queue
    {
      this.queue := queue;
    }
  }

  datatype QueueName = Runnable | Sleeping | MutexQueue(m: QMutex) | CondQueue(c: QCond)

  /** `holds` is history: the mutexes for which the thread has returned from a lock (or from a
      wait) and which it has not released since. */
  datatype ThreadInfo = ThreadInfo(
    dead: bool, waiter: QThread?, returnVal: int, timing: int, context: Context, holds: set<QMutex>)

  /** `owner` is history: the thread that took the mutex, or was handed it by the last unlock. */
  datatype MutexInfo = MutexInfo(locked: bool, owner: QThread?)

  /** `current` is the global `current_thread`; `cpu` is the thread whose stack is executing.
      Both are null once the scheduler has dereferenced the NULL popped from an empty queue.
      `ticks` counts the clock readings made so far. */
  datatype State = State(
    current: QThread?, cpu: QThread?,
    queues: map<QueueName, seq<QThread>>,
    threads: map<QThread, ThreadInfo>,
    mutexes: map<QMutex, MutexInfo>,
    ticks: nat)

  const NO_THREAD := ThreadInfo(true, null, 0, 0, Exited, {})

  function Q(s: State, n: QueueName): seq<QThread> {
    if n in s.queues then s.queues[n] else []
  }

  function Info(s: State, t: QThread): ThreadInfo {
    if t in s.threads then s.threads[t] else NO_THREAD
  }

  function Mutex(s: State, m: QMutex): MutexInfo {
    if m in s.mutexes then s.mutexes[m] else MutexInfo(false, null)
  }

  function PushBack(s: State, n: QueueName, t: QThread): State {
    s.(queues := s.queues[n := Q(s, n) + [t]])
  }

  function PopFront(s: State, n: QueueName): State {
    if Q(s, n) == [] then s else s.(queues := s.queues[n := Q(s, n)[1..]])
  }

  function SetInfo(s: State, t: QThread, i: ThreadInfo): State {
    s.(threads := s.threads[t := i])
  }

  function SetContext(s: State, t: QThread, x: Context): State {
    SetInfo(s, t, Info(s, t).(context := x))
  }

  // ---------------------------------------------------------------------------------------
  // The clock: the readings get_usecs returns, in order.  They never decrease, and no deadline
  // stays in the future for ever.

  ghost predicate GoodClock(clock: nat -> int) {
    && (forall i: nat, j: nat :: i <= j ==> clock(i) <= clock(j))
    && (forall d: int :: Passes(clock, d))
  }

  ghost predicate Passes(clock: nat -> int, d: int) {
    exists n: nat :: Reaches(clock, d, n)
  }

  ghost predicate Reaches(clock: nat -> int, d: int, n: nat) {
    clock(n) >= d
  }

  type Clock = clock: nat -> int | GoodClock(clock) ghost witness PlainClock()

  ghost function PlainClock(): (clock: nat -> int)
    ensures GoodClock(clock)
  {
    var clock := (n: nat) => n as int;
    assert forall d: int :: Passes(clock, d) by {
      forall d: int ensures Passes(clock, d) {
        var n: nat := if d < 0 then 0 else d;
        assert Reaches(clock, d, n);
      }
    }
    clock
  }

  /** The n-th clock reading. */
  function Reading(clock: Clock, n: nat): int {
    clock(n)
  }

  ghost predicate PassedAt(clock: Clock, threads: map<QThread, ThreadInfo>, n: nat) {
    && NO_THREAD.timing <= Reading(clock, n)
    && forall t :: t in threads ==> threads[t].timing <= Reading(clock, n)
  }

  /** There is a reading by which every deadline recorded in `threads` has passed. */
  lemma DeadlinesPass(clock: Clock, threads: map<QThread, ThreadInfo>)
    ensures exists n: nat :: PassedAt(clock, threads, n)
    decreases |threads|
  {
    if threads == map[] {
      var d := NO_THREAD.timing;
      assert Passes(clock, d);
      var n: nat :| Reaches(clock, d, n);
      assert PassedAt(clock, threads, n);
    } else {
      var t :| t in threads;
      var rest := threads - {t};
      assert rest.Keys == threads.Keys - {t};
      DeadlinesPass(clock, rest);
      var n1: nat :| PassedAt(clock, rest, n1);
      var d := threads[t].timing;
      assert Passes(clock, d);
      var n2: nat :| Reaches(clock, d, n2);
      var n := if n1 < n2 then n2 else n1;
      forall u | u in threads ensures threads[u].timing <= Reading(clock, n) {
        if u != t {
          assert u in rest && rest[u] == threads[u];
        }
      }
      assert PassedAt(clock, threads, n);
    }
  }

  ghost function AllPassed(clock: Clock, threads: map<QThread, ThreadInfo>): (n: nat)
    ensures PassedAt(clock, threads, n)
  {
    DeadlinesPass(clock, threads);
    var n: nat :| PassedAt(clock, threads, n);
    n
  }

  // ---------------------------------------------------------------------------------------
  // The scheduler.

  ghost function WakeTicksLeft(clock: Clock, threads: map<QThread, ThreadInfo>, ticks: nat): nat {
    var n := AllPassed(clock, threads);
    if ticks < n then n - ticks else 0
  }

  function Rotate(s: State, head: QThread): State {
    PushBack(PopFront(s, Sleeping), Sleeping, head)
  }

  /** The loop of wake_sleeping_threads, with `head` popped from the sleeping set.  `linked` says
      whether head->next is non-NULL: push_back clears it, pop_front leaves it as it was. */
  ghost function WakeLoop(clock: Clock, s: State, head: QThread, linked: bool): State
    decreases WakeTicksLeft(clock, s.threads, s.ticks)
  {
    var s1 := s.(ticks := s.ticks + 1);
    if Info(s, head).timing <= Reading(clock, s.ticks) then
      PushBack(s1, Runnable, head)
    else
      assert WakeTicksLeft(clock, s.threads, s1.ticks) < WakeTicksLeft(clock, s.threads, s.ticks);
      if linked && Q(s, Sleeping) != [] then
        WakeLoop(clock, Rotate(s1, head), Q(s, Sleeping)[0], |Q(s, Sleeping)| >= 2)
      else
        WakeLoop(clock, s1, head, linked)
  }

  /** wake_sleeping_threads */
  ghost function Wake(clock: Clock, s: State): State {
    if Q(s, Sleeping) == [] then s
    else WakeLoop(clock, PopFront(s, Sleeping), Q(s, Sleeping)[0], |Q(s, Sleeping)| >= 2)
  }

  /** switch_runnable: popping from an empty queue gives NULL, whose `dead` is then read. */
  function SwitchRunnable(s: State, old_: QThread?): State {
    if Q(s, Runnable) == [] then s.(current := null, cpu := null)
    else
      var next := Q(s, Runnable)[0];
      var s1 := PopFront(s, Runnable).(current := next);
      if next == old_ || Info(s, next).dead then s1 else s1.(cpu := next)
  }

  datatype Kind = ForYield | ForExit | ForWait | ForSleep

  ghost function WakeIfIdle(clock: Clock, s: State): State {
    if Q(s, Runnable) == [] then Wake(clock, s) else s
  }

  function Park(s: State, kind: Kind, t: QThread): State {
    match kind
    case ForExit => s
    case ForWait => s
    case ForSleep => PushBack(s, Sleeping, t)
    case ForYield => PushBack(s, Runnable, t)
  }

  ghost function Schedule(clock: Clock, s: State, kind: Kind): State
    requires s.current != null
  {
    var s1 := if kind == ForExit then WakeIfIdle(clock, s) else s;
    var s2 := Park(s1, kind, s.current);
    SwitchRunnable(WakeIfIdle(clock, s2), s.current)
  }

  // ---------------------------------------------------------------------------------------
  // The entry points.  Each is called by the running thread.

  datatype Op =
    | Create(t: QThread, returnVal0: int, timing0: int)   // the last two: left by malloc
    | NewMutex(m: QMutex)
    | NewCond(c: QCond)
    | Yield
    | Exit(v: int)
    | Join(target: QThread)
    | Usleep(usecs: int)
    | Lock(m: QMutex)
    | Unlock(m: QMutex)
    | Wait(c: QCond, m: QMutex)
    | Signal(c: QCond)
    | Broadcast(c: QCond)
    | Resume                                              // go on where the thread was switched out

  function Init(main: QThread, returnVal0: int, timing0: int): State {
    State(main, main, map[Runnable := [], Sleeping := []],
          map[main := ThreadInfo(false, null, returnVal0, timing0, Running, {})], map[], 0)
  }

  function ReleaseMutex(s: State, t: QThread, m: QMutex): State {
    var s1 := SetInfo(s, t, Info(s, t).(holds := Info(s, t).holds - {m}));
    if Q(s, MutexQueue(m)) != [] then
      var heir := Q(s, MutexQueue(m))[0];
      PushBack(PopFront(s1, MutexQueue(m)), Runnable, heir)
        .(mutexes := s.mutexes[m := Mutex(s, m).(owner := heir)])
    else
      s1.(mutexes := s.mutexes[m := MutexInfo(false, null)])
  }

  function TakeMutex(s: State, t: QThread, m: QMutex): State {
    SetInfo(s, t, Info(s, t).(context := Running, holds := Info(s, t).holds + {m}))
      .(mutexes := s.mutexes[m := MutexInfo(true, t)])
  }

  ghost function LockMutex(clock: Clock, s: State, m: QMutex): State
    requires s.current != null
  {
    if !Mutex(s, m).locked then TakeMutex(s, s.current, m)
    else Schedule(clock, SetContext(PushBack(s, MutexQueue(m), s.current), s.current, Locking(m)), ForWait)
  }

  function SignalCond(s: State, c: QCond): State {
    if Q(s, CondQueue(c)) == [] then s
    else PushBack(PopFront(s, CondQueue(c)), Runnable, Q(s, CondQueue(c))[0])
  }

  function BroadcastCond(s: State, c: QCond): State
    decreases |Q(s, CondQueue(c))|
  {
    if Q(s, CondQueue(c)) == [] then s else BroadcastCond(SignalCond(s, c), c)
  }

  function MarkExited(s: State, t: QThread, v: int): State {
    var s1 := SetInfo(s, t, Info(s, t).(returnVal := v, dead := true, context := Exited));
    var w := Info(s, t).waiter;
    if w != null then PushBack(s1, Runnable, w) else s1
  }

  function SetWaiter(s: State, target: QThread, w: QThread): State {
    SetInfo(s, target, Info(s, target).(waiter := w))
  }

  ghost function JoinLoop(clock: Clock, s: State, target: QThread): State
    requires s.current != null
  {
    if Info(s, target).dead then SetContext(s, s.current, Running)
    else Schedule(clock, SetContext(s, s.current, Joining(target)), ForWait)
  }

  ghost function ResumeThread(clock: Clock, s: State): State
    requires s.current != null
  {
    var t := s.current;
    match Info(s, t).context
    case Locking(m) =>
      SetInfo(s, t, Info(s, t).(context := Running, holds := Info(s, t).holds + {m}))
    case Waiting(c, m) => LockMutex(clock, s, m)
    case Joining(target) => JoinLoop(clock, s, target)
    case _ => SetContext(s, t, Running)
  }

  function StartSleep(clock: Clock, s: State, t: QThread, usecs: int): State {
    var until := Reading(clock, s.ticks) + usecs;
    SetInfo(s, t, Info(s, t).(timing := until, context := Asleep(until))).(ticks := s.ticks + 1)
  }

  function StartWait(s: State, t: QThread, c: QCond, m: QMutex): State {
    SetContext(PushBack(ReleaseMutex(s, t, m), CondQueue(c), t), t, Waiting(c, m))
  }

  ghost function Step(clock: Clock, s: State, op: Op): State
    requires s.current != null
  {
    var t := s.current;
    match op
    case Create(n, r0, t0) =>
      PushBack(SetInfo(s, n, ThreadInfo(false, null, r0, t0, Ready, {})), Runnable, n)
    case NewMutex(m) =>
      s.(queues := s.queues[MutexQueue(m) := []], mutexes := s.mutexes[m := MutexInfo(false, null)])
    case NewCond(c) => s.(queues := s.queues[CondQueue(c) := []])
    case Yield => Schedule(clock, SetContext(s, t, Ready), ForYield)
    case Exit(v) => Schedule(clock, MarkExited(s, t, v), ForExit)
    case Join(target) => JoinLoop(clock, SetWaiter(s, target, t), target)
    case Usleep(usecs) => Schedule(clock, StartSleep(clock, s, t, usecs), ForSleep)
    case Lock(m) => LockMutex(clock, s, m)
    case Unlock(m) => ReleaseMutex(s, t, m)
    case Wait(c, m) => Schedule(clock, StartWait(s, t, c, m), ForWait)
    case Signal(c) => SignalCond(s, c)
    case Broadcast(c) => BroadcastCond(s, c)
    case Resume => ResumeThread(clock, s)
  }

  /** What the library asks of its callers.  Only the thread whose stack is executing acts; a
      thread inside a blocking call can only go on with it.  A live thread is joined by one
      other thread, and a mutex is released by the thread that holds it and not taken twice. */
  predicate Legal(s: State, op: Op) {
    && s.current != null && s.current in s.threads
    && var me := s.threads[s.current];
       if me.context != Running then op == Resume
       else match op
         case Create(t, _, _) => t !in s.threads
         case NewMutex(m) => m !in s.mutexes
         case NewCond(c) => CondQueue(c) !in s.queues
         case Join(target) =>
           && target in s.threads && target != s.current
           && (s.threads[target].dead || s.threads[target].waiter == null)
         case Lock(m) => m in s.mutexes && m !in me.holds
         case Unlock(m) => m in me.holds
         case Wait(c, m) => CondQueue(c) in s.queues && m in me.holds
         case Signal(c) => CondQueue(c) in s.queues
         case Broadcast(c) => CondQueue(c) in s.queues
         case Resume => false
         case _ => true
  }

  // ---------------------------------------------------------------------------------------
  // Runs.

  ghost predicate LegalRun(clock: Clock, s: State, ops: seq<Op>)
    decreases |ops|
  {
    ops == [] || (Legal(s, ops[0]) && LegalRun(clock, Step(clock, s, ops[0]), ops[1..]))
  }

  ghost function Exec(clock: Clock, s: State, ops: seq<Op>): State
    requires LegalRun(clock, s, ops)
    decreases |ops|
  {
    if ops == [] then s else Exec(clock, Step(clock, s, ops[0]), ops[1..])
  }
}
