/** What every step of the thread library keeps. */
module ThreadInvariants {
  import opened ThreadModel

  // ---------------------------------------------------------------------------------------
  // The invariant.

  ghost predicate Queued(s: State, t: QThread) {
    exists n :: n in s.queues && t in s.queues[n]
  }

  ghost predicate NoDuplicates(q: seq<QThread>) {
    forall i, j :: 0 <= i < j < |q| ==> q[i] != q[j]
  }

  predicate Fits(n: QueueName, x: Context) {
    match n
    case Runnable => true
    case Sleeping => x.Asleep?
    case MutexQueue(m) => x == Locking(m)
    case CondQueue(c) => x.Waiting? && x.c == c
  }

  /** The time of the last clock reading is at least `d`. */
  predicate Elapsed(clock: Clock, s: State, d: int) {
    s.ticks > 0 && d <= Reading(clock, s.ticks - 1)
  }

  /** What must hold before a blocked thread may go on. */
  predicate CanResume(clock: Clock, s: State, t: QThread) {
    match Info(s, t).context
    case Running => false
    case Exited => false
    case Ready => true
    case Asleep(d) => Elapsed(clock, s, d)
    case Locking(m) => Mutex(s, m).owner == t
    case Waiting(c, m) => m in s.mutexes && s.mutexes[m].owner != t
    case Joining(u) => Info(s, u).dead
  }

  predicate EntryOK(clock: Clock, s: State, n: QueueName, t: QThread) {
    && t in s.threads && !s.threads[t].dead
    && Fits(n, s.threads[t].context)
    && (n == Runnable ==> CanResume(clock, s, t))
    && (n.MutexQueue? ==> Mutex(s, n.m).owner != t)
  }

  ghost predicate Domains(s: State) {
    && Runnable in s.queues && Sleeping in s.queues
    && (forall m | m in s.mutexes :: MutexQueue(m) in s.queues)
    && (forall n | n in s.queues :: n.MutexQueue? ==> n.m in s.mutexes)
  }

  ghost predicate QueuesOK(clock: Clock, s: State) {
    && (forall n | n in s.queues :: NoDuplicates(s.queues[n]))
    && (forall n1, n2, t | n1 in s.queues && n2 in s.queues && t in s.queues[n1] && t in s.queues[n2] :: n1 == n2)
    && (forall n, t | n in s.queues && t in s.queues[n] :: EntryOK(clock, s, n, t))
  }

  ghost predicate MutexOK(s: State, m: QMutex) {
    var i := Mutex(s, m);
    && (i.locked <==> i.owner != null)
    && (Q(s, MutexQueue(m)) != [] ==> i.locked)
    && (i.owner != null ==>
          && i.owner in s.threads
          && (m in s.threads[i.owner].holds <==> s.threads[i.owner].context != Locking(m)))
  }

  ghost predicate ThreadOK(s: State, t: QThread) {
    var i := Info(s, t);
    && (i.dead <==> i.context == Exited)
    && (!i.dead && i.waiter != null ==>
          i.waiter in s.threads && s.threads[i.waiter].context == Joining(t))
    && (i.context.Joining? ==>
          i.context.target in s.threads
          && (Info(s, i.context.target).dead || Info(s, i.context.target).waiter == t))
    && (i.context.Asleep? ==> i.timing == i.context.until)
    && (i.context.Waiting? ==>
          i.context.m in s.mutexes && CondQueue(i.context.c) in s.queues && s.mutexes[i.context.m].owner != t)
    && (i.context.Locking? ==> i.context.m in s.mutexes)
    && (forall m | m in i.holds :: m in s.mutexes && s.mutexes[m].owner == t)
  }

  /** A thread in no queue that is not running has exited, or waits to be woken by the exit of
      the live thread it joins. */
  ghost predicate Accounted(s: State, t: QThread) {
    || Queued(s, t)
    || Info(s, t).dead
    || (Info(s, t).context.Joining? && !Info(s, Info(s, t).context.target).dead)
  }

  /** Everything the invariant says, except about the running thread and the accounts of the
      threads `loose`, just taken out of a queue. */
  ghost predicate RestBut(clock: Clock, s: State, loose: set<QThread>) {
    && Domains(s)
    && QueuesOK(clock, s)
    && (forall m | m in s.mutexes :: MutexOK(s, m))
    && (forall t | t in s.threads :: ThreadOK(s, t))
    && (forall t | t in s.threads && t != s.current && t !in loose :: Accounted(s, t))
  }

  ghost predicate Rest(clock: Clock, s: State) {
    RestBut(clock, s, {})
  }

  ghost predicate CurrentOK(clock: Clock, s: State) {
    && s.cpu == s.current
    && (s.current != null ==>
          && s.current in s.threads
          && !s.threads[s.current].dead
          && !Queued(s, s.current)
          && (s.threads[s.current].context == Running || CanResume(clock, s, s.current)))
  }

  ghost predicate Inv(clock: Clock, s: State) {
    Rest(clock, s) && CurrentOK(clock, s)
  }

  // ---------------------------------------------------------------------------------------
  // Moving threads between queues.

  lemma PushMembers(s: State, n: QueueName, t: QThread)
    requires n in s.queues
    ensures var s1 := PushBack(s, n, t);
            && s1.queues.Keys == s.queues.Keys
            && Queued(s1, t)
            && (forall k, u | k in s.queues :: u in s1.queues[k] <==> u in s.queues[k] || (k == n && u == t))
            && (forall u :: Queued(s, u) ==> Queued(s1, u))
            && (forall u :: Queued(s1, u) ==> Queued(s, u) || u == t)
  {
    var s1 := PushBack(s, n, t);
    assert t in s1.queues[n];
    forall u | Queued(s, u) ensures Queued(s1, u) {
      var k :| k in s.queues && u in s.queues[k];
      assert u in s1.queues[k];
    }
  }

  /** Whether a thread is in place in a queue depends on the records, the mutexes and the time only. */
  lemma SameEntries(clock: Clock, s: State, s1: State)
    requires s1.threads == s.threads && s1.mutexes == s.mutexes && s1.ticks == s.ticks
    ensures forall k, u :: EntryOK(clock, s1, k, u) <==> EntryOK(clock, s, k, u)
  {
  }

  lemma PushEntries(clock: Clock, s: State, n: QueueName, t: QThread)
    requires QueuesOK(clock, s) && n in s.queues && !Queued(s, t) && EntryOK(clock, s, n, t)
    ensures QueuesOK(clock, PushBack(s, n, t))
  {
    hide EntryOK;
    var s1 := PushBack(s, n, t);
    PushMembers(s, n, t);
    SameEntries(clock, s, s1);
    assert forall k | k in s.queues :: t !in s.queues[k];
    assert NoDuplicates(s.queues[n]);
  }

  lemma PushKeeps(clock: Clock, s: State, n: QueueName, t: QThread)
    requires RestBut(clock, s, {t}) && n in s.queues && !Queued(s, t) && EntryOK(clock, s, n, t)
    requires n.MutexQueue? ==> s.mutexes[n.m].locked
    ensures Rest(clock, PushBack(s, n, t)) && Queued(PushBack(s, n, t), t)
  {
    hide QueuesOK;
    var s1 := PushBack(s, n, t);
    PushMembers(s, n, t);
    PushEntries(clock, s, n, t);
    forall m | m in s1.mutexes ensures MutexOK(s1, m) {
      assert MutexOK(s, m);
    }
    forall u | u in s1.threads ensures ThreadOK(s1, u) {
      assert ThreadOK(s, u);
    }
    forall u | u in s1.threads && u != s1.current && u != t ensures Accounted(s1, u) {
      assert Accounted(s, u);
    }
  }

  lemma PopMembers(clock: Clock, s: State, n: QueueName)
    requires QueuesOK(clock, s) && Q(s, n) != []
    ensures var s1 := PopFront(s, n); var head := Q(s, n)[0];
            && s1.queues.Keys == s.queues.Keys
            && NoDuplicates(s1.queues[n])
            && !Queued(s1, head)
            && (forall k, u | k in s.queues :: u in s1.queues[k] <==> u in s.queues[k] && u != head)
            && (forall u :: Queued(s1, u) <==> Queued(s, u) && u != head)
  {
    var s1 := PopFront(s, n);
    var head := Q(s, n)[0];
    assert head in s.queues[n];
    assert NoDuplicates(s.queues[n]);
    forall k, u | k in s.queues
      ensures u in s1.queues[k] <==> u in s.queues[k] && u != head
    {
      assert u in s.queues[k] && u == head ==> k == n;
      if k == n {
        assert s.queues[n] == [head] + s1.queues[n];
      }
    }
    forall u | Queued(s, u) && u != head ensures Queued(s1, u) {
      var k :| k in s.queues && u in s.queues[k];
      assert u in s1.queues[k];
    }
  }

  lemma PopEntries(clock: Clock, s: State, n: QueueName)
    requires Rest(clock, s) && Q(s, n) != []
    ensures var s1 := PopFront(s, n);
            QueuesOK(clock, s1) && (forall m | m in s1.mutexes :: MutexOK(s1, m))
  {
    hide ThreadOK, Accounted;
    var s1 := PopFront(s, n);
    PopMembers(clock, s, n);
    forall k, u | k in s1.queues && u in s1.queues[k] ensures EntryOK(clock, s1, k, u) {
      assert EntryOK(clock, s, k, u);
    }
    forall m | m in s1.mutexes ensures MutexOK(s1, m) {
      assert MutexOK(s, m);
    }
  }

  lemma PopThreads(clock: Clock, s: State, n: QueueName)
    requires Rest(clock, s) && Q(s, n) != []
    ensures var s1 := PopFront(s, n); forall u | u in s1.threads :: ThreadOK(s1, u)
  {
    hide QueuesOK, EntryOK, MutexOK, Accounted;
    var s1 := PopFront(s, n);
    forall u | u in s1.threads ensures ThreadOK(s1, u) {
      assert ThreadOK(s, u);
    }
  }

  lemma PopAccounts(clock: Clock, s: State, n: QueueName)
    requires Rest(clock, s) && Q(s, n) != []
    ensures var s1 := PopFront(s, n); var head := Q(s, n)[0];
            forall u | u in s1.threads && u != s1.current && u != head :: Accounted(s1, u)
  {
    hide ThreadOK, EntryOK, MutexOK, NoDuplicates, Queued;
    var s1 := PopFront(s, n);
    PopMembers(clock, s, n);
    forall u | u in s1.threads && u != s1.current && u != Q(s, n)[0] ensures Accounted(s1, u) {
      assert Accounted(s, u);
    }
  }

  lemma PopHead(clock: Clock, s: State, n: QueueName)
    requires QueuesOK(clock, s) && Q(s, n) != []
    ensures EntryOK(clock, s, n, Q(s, n)[0])
  {
    hide EntryOK;
    assert Q(s, n)[0] in s.queues[n];
  }

  /** Taking the head off a queue keeps everything but the account of the head itself. */
  lemma PopKeeps(clock: Clock, s: State, n: QueueName)
    requires Rest(clock, s) && Q(s, n) != []
    ensures var s1 := PopFront(s, n); var head := Q(s, n)[0];
            && EntryOK(clock, s, n, head) && !Queued(s1, head)
            && RestBut(clock, s1, {head})
  {
    hide QueuesOK, ThreadOK, MutexOK, Accounted, EntryOK, Queued;
    PopMembers(clock, s, n);
    PopHead(clock, s, n);
    PopEntries(clock, s, n);
    PopThreads(clock, s, n);
    PopAccounts(clock, s, n);
  }

  /** Switching away from a thread that is accounted for restores the whole invariant, and the
      `dead` test of switch_runnable never keeps the old stack running. */
  lemma SwitchKeeps(clock: Clock, s: State)
    requires Rest(clock, s)
    requires s.current != null && s.cpu == s.current && s.current in s.threads && Accounted(s, s.current)
    ensures var s1 := SwitchRunnable(s, s.current);
            && Inv(clock, s1)
            && s1.current == if Q(s, Runnable) == [] then null else Q(s, Runnable)[0]
  {
    hide ThreadOK, MutexOK, NoDuplicates, Domains, QueuesOK;
    var s1 := SwitchRunnable(s, s.current);
    if Q(s, Runnable) == [] {
      SameButRunning(clock, s, s1);
    } else {
      RestQueues(clock, s);
      PopKeeps(clock, s, Runnable);
      PopMembers(clock, s, Runnable);
      SameButRunning(clock, PopFront(s, Runnable), s1);
    }
  }

  lemma RestQueues(clock: Clock, s: State)
    requires Rest(clock, s)
    ensures QueuesOK(clock, s) && Domains(s)
  {
    hide QueuesOK, Domains;
  }

  /** Which thread runs matters only for the accounts. */
  lemma SameButRunning(clock: Clock, s: State, s1: State)
    requires RestBut(clock, s, if s1.current == null then {} else {s1.current})
    requires s1.current != s.current && s.current in s.threads ==> Accounted(s, s.current)
    requires s1 == s.(current := s1.current, cpu := s1.cpu)
    ensures Rest(clock, s1)
    ensures forall t :: Queued(s1, t) <==> Queued(s, t)
  {
    hide EntryOK, ThreadOK, MutexOK;
    SameEntries(clock, s, s1);
    SameRecords(clock, s, s1);
    forall u | u in s1.threads && u != s1.current ensures Accounted(s1, u) {
      assert Accounted(s, u);
    }
  }

  lemma SameRecords(clock: Clock, s: State, s1: State)
    requires s1.threads == s.threads && s1.mutexes == s.mutexes && s1.queues == s.queues
    ensures forall u :: ThreadOK(s1, u) <==> ThreadOK(s, u)
    ensures forall m :: MutexOK(s1, m) <==> MutexOK(s, m)
  {
  }

  // ---------------------------------------------------------------------------------------
  // Waking a sleeper.

  /** `s1` is `s` after the sleeper at place `r` of `ring` (the sleepers in their cyclic order)
      has been made runnable, the others keeping that order, its deadline having passed at the
      last of the clock readings made. */
  ghost predicate WokeOne(clock: Clock, s: State, s1: State, ring: seq<QThread>, r: nat) {
    && r < |ring|
    && s1 == s.(ticks := s1.ticks,
                queues := s.queues[Sleeping := ring[r + 1..] + ring[..r]]
                                  [Runnable := Q(s, Runnable) + [ring[r]]])
    && s.ticks < s1.ticks
    && Info(s, ring[r]).timing <= Reading(clock, s1.ticks - 1)
  }

  /** The place in `ring` of what is at place `r` after the head has gone to the end. */
  function Turned(ring: seq<QThread>, r: nat): nat {
    if r + 1 == |ring| then 0 else r + 1
  }

  lemma TurnRing(ring: seq<QThread>, r: nat)
    requires r < |ring|
    ensures var turned := ring[1..] + [ring[0]]; var r1 := Turned(ring, r);
            && turned[r] == ring[r1]
            && turned[r + 1..] + turned[..r] == ring[r1 + 1..] + ring[..r1]
  {
    var turned := ring[1..] + [ring[0]];
    if r + 1 == |ring| {
      assert turned[r + 1..] + turned[..r] == ring[1..];
      assert ring[1..] + ring[..0] == ring[1..];
    } else {
      assert turned[r + 1..] == ring[r + 2..] + [ring[0]];
      assert turned[..r] == ring[1..r + 1];
      assert ring[..r + 1] == [ring[0]] + ring[1..r + 1];
    }
  }

  /** The place in a ring of `n` sleepers of the one the loop looks at with its j-th reading.  Turning a
      ring of two leaves a head whose `next` is null, and the loop turns no more. */
  function Examined(n: nat, linked: bool, j: nat): (r: nat)
    requires n > 0
    ensures r < n
    decreases j
  {
    if j == 0 || !linked then 0
    else
      var r := Examined(n, n >= 3, j - 1);
      if r + 1 == n then 0 else r + 1
  }

  /** None of the first `k` readings finds the sleeper it looks at due. */
  ghost predicate PassedOver(clock: Clock, s: State, ring: seq<QThread>, linked: bool, k: nat)
    requires ring != []
  {
    forall j: nat :: j < k ==> NotDue(clock, s, ring, linked, j)
  }

  predicate NotDue(clock: Clock, s: State, ring: seq<QThread>, linked: bool, j: nat)
    requires ring != []
  {
    Info(s, ring[Examined(|ring|, linked, j)]).timing > Reading(clock, s.ticks + j)
  }

  /** The readings after a turn of the ring are the later ones before it. */
  lemma PassesOver(clock: Clock, s: State, s2: State, ring: seq<QThread>, k: nat)
    requires |ring| >= 2 && s2.threads == s.threads && s2.ticks == s.ticks + 1
    requires NotDue(clock, s, ring, true, 0)
    requires PassedOver(clock, s2, ring[1..] + [ring[0]], |ring| >= 3, k)
    ensures PassedOver(clock, s, ring, true, k + 1)
  {
    var turned := ring[1..] + [ring[0]];
    forall j: nat | j < k + 1 ensures NotDue(clock, s, ring, true, j) {
      if j > 0 {
        assert NotDue(clock, s2, turned, |ring| >= 3, j - 1);
        TurnRing(ring, Examined(|ring|, |ring| >= 3, j - 1));
      }
    }
  }

  /** Waiting for one sleeper, the readings go on. */
  lemma StaysOver(clock: Clock, s: State, s2: State, ring: seq<QThread>, k: nat)
    requires ring != [] && s2.threads == s.threads && s2.ticks == s.ticks + 1
    requires NotDue(clock, s, ring, false, 0)
    requires PassedOver(clock, s2, ring, false, k)
    ensures PassedOver(clock, s, ring, false, k + 1)
  {
    forall j: nat | j < k + 1 ensures NotDue(clock, s, ring, false, j) {
      if j > 0 {
        assert NotDue(clock, s2, ring, false, j - 1);
      }
    }
  }

  lemma TicksLeft(clock: Clock, s: State, head: QThread, s1: State)
    requires Info(s, head).timing > Reading(clock, s.ticks)
    requires s1.threads == s.threads && s1.ticks == s.ticks + 1
    ensures WakeTicksLeft(clock, s1.threads, s1.ticks) < WakeTicksLeft(clock, s.threads, s.ticks)
  {
    assert PassedAt(clock, s.threads, AllPassed(clock, s.threads));
  }

  lemma WokeAfterTurn(clock: Clock, s: State, head: QThread, s3: State, r: nat)
    requires Sleeping in s.queues && Q(s, Sleeping) != []
    requires var s2 := Rotate(s.(ticks := s.ticks + 1), head);
             WokeOne(clock, s2, s3, [Q(s, Sleeping)[0]] + Q(s2, Sleeping), r)
    ensures WokeOne(clock, s, s3, [head] + Q(s, Sleeping), Turned([head] + Q(s, Sleeping), r))
  {
    var s2 := Rotate(s.(ticks := s.ticks + 1), head);
    var ring := [head] + Q(s, Sleeping);
    var turned := ring[1..] + [ring[0]];
    assert [Q(s, Sleeping)[0]] + Q(s2, Sleeping) == turned;
    TurnRing(ring, r);
    var rest := turned[r + 1..] + turned[..r];
    assert s2.queues[Sleeping := rest] == s.queues[Sleeping := rest];
    assert Q(s2, Runnable) == Q(s, Runnable);
  }

  lemma WokeAtOnce(clock: Clock, s: State, head: QThread)
    requires Sleeping in s.queues && Runnable in s.queues
    requires Info(s, head).timing <= Reading(clock, s.ticks)
    ensures WokeOne(clock, s, PushBack(s.(ticks := s.ticks + 1), Runnable, head), [head] + Q(s, Sleeping), 0)
  {
    var ring := [head] + Q(s, Sleeping);
    assert ring[1..] + ring[..0] == Q(s, Sleeping);
    assert s.queues[Sleeping := Q(s, Sleeping)] == s.queues;
  }

  /** The loop ends with `k` readings that find nobody due and one that does. */
  ghost predicate WokeAt(
      clock: Clock, s: State, s1: State, ring: seq<QThread>, linked: bool, r: nat)
  {
    && WokeOne(clock, s, s1, ring, r)
    && var k := s1.ticks - s.ticks - 1;
       r == Examined(|ring|, linked, k) && PassedOver(clock, s, ring, linked, k)
  }

  /** A turn of the ring, and what the loop does after it. */
  lemma ShapeAfterTurn(clock: Clock, s: State, head: QThread, end: State, r1: nat)
    requires Sleeping in s.queues && Q(s, Sleeping) != [] && Info(s, head).timing > Reading(clock, s.ticks)
    requires var s2 := Rotate(s.(ticks := s.ticks + 1), head);
             WokeAt(clock, s2, end, [Q(s, Sleeping)[0]] + Q(s2, Sleeping), |Q(s, Sleeping)| >= 2, r1)
    ensures var ring := [head] + Q(s, Sleeping); r1 < |ring| && WokeAt(clock, s, end, ring, true, Turned(ring, r1))
  {
    hide Examined, PassedOver, WokeOne;
    var s2 := Rotate(s.(ticks := s.ticks + 1), head);
    var ring := [head] + Q(s, Sleeping);
    assert [Q(s, Sleeping)[0]] + Q(s2, Sleeping) == ring[1..] + [ring[0]];
    ExaminedFirst(clock, s, ring, true);
    WokeAfterTurn(clock, s, head, end, r1);
    WokeLater(clock, s2, end, r1, ring[1..] + [ring[0]]);
    PassesOver(clock, s, s2, ring, end.ticks - s2.ticks - 1);
    ExaminedNext(|ring|, end.ticks - s2.ticks - 1);
  }

  /** A reading that finds the one sleeper not due, and what the loop does after it. */
  lemma ShapeAfterWait(clock: Clock, s: State, head: QThread, end: State, r: nat)
    requires Sleeping in s.queues && Info(s, head).timing > Reading(clock, s.ticks)
    requires WokeAt(clock, s.(ticks := s.ticks + 1), end, [head] + Q(s, Sleeping), false, r)
    ensures WokeAt(clock, s, end, [head] + Q(s, Sleeping), false, r)
  {
    hide Examined, PassedOver, WokeOne;
    var s1 := s.(ticks := s.ticks + 1);
    var ring := [head] + Q(s, Sleeping);
    ExaminedFirst(clock, s, ring, false);
    WokeLater(clock, s1, end, r, ring);
    WokeOneReading(clock, s, s1, end, ring, r);
    StaysOver(clock, s, s1, ring, end.ticks - s1.ticks - 1);
    ExaminedSame(|ring|, end.ticks - s.ticks - 1, end.ticks - s1.ticks - 1);
  }

  lemma ShapeAtOnce(clock: Clock, s: State, head: QThread, linked: bool)
    requires Sleeping in s.queues && Runnable in s.queues
    requires Info(s, head).timing <= Reading(clock, s.ticks)
    ensures WokeAt(clock, s, PushBack(s.(ticks := s.ticks + 1), Runnable, head), [head] + Q(s, Sleeping), linked, 0)
  {
    hide Examined, PassedOver, WokeOne;
    ExaminedFirst(clock, s, [head] + Q(s, Sleeping), linked);
    WokeAtOnce(clock, s, head);
  }

  /** However the loop goes on, whether it turns the ring or stays on one thread, one sleeper is
      woken, the first that a reading finds due, and the cyclic order of the others is kept. */
  lemma {:induction false} WakeLoopShape(clock: Clock, s: State, head: QThread, linked: bool) returns (r: nat)
    requires Sleeping in s.queues && Runnable in s.queues
    requires linked ==> Q(s, Sleeping) != []
    ensures WokeAt(clock, s, WakeLoop(clock, s, head, linked), [head] + Q(s, Sleeping), linked, r)
    decreases WakeTicksLeft(clock, s.threads, s.ticks)
  {
    hide WokeAt, WakeTicksLeft;
    var s1 := s.(ticks := s.ticks + 1);
    var ring := [head] + Q(s, Sleeping);
    var end := WakeLoop(clock, s, head, linked);
    if Info(s, head).timing <= Reading(clock, s.ticks) {
      ShapeAtOnce(clock, s, head, linked);
      r := 0;
    } else if linked {
      TicksLeft(clock, s, head, Rotate(s1, head));
      r := WakeLoopShape(clock, Rotate(s1, head), Q(s, Sleeping)[0], |Q(s, Sleeping)| >= 2);
      ShapeAfterTurn(clock, s, head, end, r);
      r := Turned(ring, r);
    } else {
      TicksLeft(clock, s, head, s1);
      r := WakeLoopShape(clock, s1, head, linked);
      ShapeAfterWait(clock, s, head, end, r);
    }
  }

  lemma ExaminedFirst(clock: Clock, s: State, ring: seq<QThread>, linked: bool)
    requires ring != []
    ensures Examined(|ring|, linked, 0) == 0 && PassedOver(clock, s, ring, linked, 0)
    ensures NotDue(clock, s, ring, linked, 0) <==> Info(s, ring[0]).timing > Reading(clock, s.ticks)
  {
  }

  lemma ExaminedNext(n: nat, k: nat)
    requires n >= 2
    ensures var r := Examined(n, n >= 3, k); Examined(n, true, k + 1) == if r + 1 == n then 0 else r + 1
  {
  }

  lemma ExaminedSame(n: nat, j: nat, k: nat)
    requires n > 0
    ensures Examined(n, false, j) == Examined(n, false, k)
  {
  }

  lemma WokeLater(clock: Clock, s: State, s1: State, r: nat, ring: seq<QThread>)
    requires WokeOne(clock, s, s1, ring, r)
    ensures s.ticks < s1.ticks && r < |ring|
  {
  }

  lemma WokeOneReading(clock: Clock, s: State, s1: State, end: State, ring: seq<QThread>, r: nat)
    requires s1 == s.(ticks := s.ticks + 1) && WokeOne(clock, s1, end, ring, r)
    ensures WokeOne(clock, s, end, ring, r)
  {
  }

  lemma WakeShape(clock: Clock, s: State) returns (r: nat)
    requires Sleeping in s.queues && Runnable in s.queues && Q(s, Sleeping) != []
    ensures WokeOne(clock, s, Wake(clock, s), Q(s, Sleeping), r)
    ensures WokeAt(clock, s, Wake(clock, s), Q(s, Sleeping), |Q(s, Sleeping)| >= 2, r)
  {
    hide Examined, WakeLoop;
    var ring := Q(s, Sleeping);
    var s0 := PopFront(s, Sleeping);
    assert [ring[0]] + Q(s0, Sleeping) == ring;
    r := WakeLoopShape(clock, s0, ring[0], |ring| >= 2);
    PoppedReadings(clock, s, s0, Wake(clock, s), ring, r);
  }

  lemma PoppedReadings(clock: Clock, s: State, s0: State, end: State, ring: seq<QThread>, r: nat)
    requires ring == Q(s, Sleeping) != [] && Sleeping in s.queues && s0 == PopFront(s, Sleeping)
    requires WokeAt(clock, s0, end, ring, |ring| >= 2, r)
    ensures WokeAt(clock, s, end, ring, |ring| >= 2, r)
  {
    hide Examined;
    var linked, k := |ring| >= 2, end.ticks - s.ticks - 1;
    assert Q(s0, Runnable) == Q(s, Runnable);
    assert end.queues == s.queues[Sleeping := ring[r + 1..] + ring[..r]][Runnable := Q(s, Runnable) + [ring[r]]];
    forall j: nat | j < k ensures NotDue(clock, s, ring, linked, j) {
      assert NotDue(clock, s0, ring, linked, j);
    }
  }

  lemma RingMembers(ring: seq<QThread>, r: nat)
    requires r < |ring| && NoDuplicates(ring)
    ensures var rest := ring[r + 1..] + ring[..r];
            && NoDuplicates(rest)
            && (forall u :: u in rest <==> u in ring && u != ring[r])
  {
    var rest := ring[r + 1..] + ring[..r];
    assert ring == ring[..r] + [ring[r]] + ring[r + 1..];
    forall u | u in ring && u != ring[r] ensures u in rest {
      var i :| 0 <= i < |ring| && ring[i] == u;
      assert if i < r then rest[|ring| - r - 1 + i] == u else rest[i - r - 1] == u;
    }
  }

  lemma WokeMembers(clock: Clock, s: State, s1: State, r: nat)
    requires Domains(s) && QueuesOK(clock, s) && WokeOne(clock, s, s1, Q(s, Sleeping), r)
    ensures var w := Q(s, Sleeping)[r];
            && s1.queues.Keys == s.queues.Keys
            && NoDuplicates(s1.queues[Sleeping]) && NoDuplicates(s1.queues[Runnable])
            && (forall u :: u in s1.queues[Sleeping] <==> u in s.queues[Sleeping] && u != w)
            && (forall u :: u in s1.queues[Runnable] <==> u in s.queues[Runnable] || u == w)
            && (forall k | k in s.queues && k != Sleeping && k != Runnable :: s1.queues[k] == s.queues[k])
            && (forall u :: Queued(s1, u) <==> Queued(s, u))
  {
    var w := Q(s, Sleeping)[r];
    assert NoDuplicates(s.queues[Sleeping]) && w in s.queues[Sleeping];
    RingMembers(Q(s, Sleeping), r);
    assert w !in s.queues[Runnable];
    assert w in s1.queues[Runnable];
    forall u ensures Queued(s1, u) <==> Queued(s, u) {
      if Queued(s, u) {
        var k :| k in s.queues && u in s.queues[k];
        assert u in s1.queues[k] || u == w;
      }
      if Queued(s1, u) {
        var k :| k in s1.queues && u in s1.queues[k];
        assert u in s.queues[k] || u == w;
      }
    }
  }

  /** The sleeper that is woken may run: its deadline has passed. */
  lemma WokenReady(clock: Clock, s: State, s1: State, r: nat)
    requires Rest(clock, s) && WokeOne(clock, s, s1, Q(s, Sleeping), r)
    ensures EntryOK(clock, s1, Runnable, Q(s, Sleeping)[r])
  {
    hide MutexOK, Accounted, Queued, NoDuplicates, Domains;
    var w := Q(s, Sleeping)[r];
    assert w in s.queues[Sleeping] && EntryOK(clock, s, Sleeping, w) && ThreadOK(s, w);
  }

  /** Time passes, and whoever was in place still is. */
  lemma LaterEntry(clock: Clock, s: State, s1: State, k: QueueName, u: QThread)
    requires EntryOK(clock, s, k, u)
    requires s1.threads == s.threads && s1.mutexes == s.mutexes && s1.ticks >= s.ticks
    ensures EntryOK(clock, s1, k, u)
  {
  }

  lemma WokeEntries(clock: Clock, s: State, s1: State, r: nat)
    requires Rest(clock, s) && WokeOne(clock, s, s1, Q(s, Sleeping), r)
    ensures QueuesOK(clock, s1)
  {
    hide EntryOK, ThreadOK, MutexOK, Accounted, Queued, Domains, NoDuplicates;
    var w := Q(s, Sleeping)[r];
    WokeMembers(clock, s, s1, r);
    WokenReady(clock, s, s1, r);
    forall k, u | k in s1.queues && u in s1.queues[k] ensures EntryOK(clock, s1, k, u) {
      assert k != Runnable ==> u in s.queues[k] && u != w;
      if u != w {
        assert u in s.queues[k] && EntryOK(clock, s, k, u);
        LaterEntry(clock, s, s1, k, u);
      }
    }
  }

  lemma WokeRecords(clock: Clock, s: State, s1: State, r: nat)
    requires Rest(clock, s) && WokeOne(clock, s, s1, Q(s, Sleeping), r)
    ensures (forall m | m in s1.mutexes :: MutexOK(s1, m)) && (forall u | u in s1.threads :: ThreadOK(s1, u))
  {
    hide EntryOK, QueuesOK, Accounted;
    forall m | m in s1.mutexes ensures MutexOK(s1, m) {
      assert MutexOK(s, m);
    }
    forall u | u in s1.threads ensures ThreadOK(s1, u) {
      assert ThreadOK(s, u);
    }
  }

  lemma WakeKeeps(clock: Clock, s: State)
    requires Rest(clock, s)
    ensures var s1 := Wake(clock, s);
            && Rest(clock, s1)
            && s1 == s.(ticks := s1.ticks, queues := s1.queues)
            && (forall u :: Queued(s1, u) <==> Queued(s, u))
            && (Q(s, Sleeping) != [] ==> Q(s1, Runnable) != [])
            && (Q(s, Sleeping) == [] ==> s1 == s)
  {
    hide EntryOK, ThreadOK, MutexOK, WakeLoop, NoDuplicates;
    if Q(s, Sleeping) != [] {
      var s1 := Wake(clock, s);
      var r := WakeShape(clock, s);
      WokeMembers(clock, s, s1, r);
      WokeEntries(clock, s, s1, r);
      WokeRecords(clock, s, s1, r);
      forall u | u in s1.threads && u != s1.current ensures Accounted(s1, u) {
        assert Accounted(s, u);
      }
    }
  }

  // ---------------------------------------------------------------------------------------
  // schedule.

  /** The running thread has put itself where `schedule(kind)` expects it. */
  ghost predicate MayLeave(s: State, kind: Kind) {
    && s.current != null && s.cpu == s.current && s.current in s.threads
    && match kind
       case ForYield => !Queued(s, s.current) && s.threads[s.current].context == Ready
       case ForSleep => !Queued(s, s.current) && s.threads[s.current].context.Asleep?
       case _ => Accounted(s, s.current)
  }

  lemma IdleKeeps(clock: Clock, s: State)
    requires Rest(clock, s)
    ensures var s1 := WakeIfIdle(clock, s);
            && Rest(clock, s1)
            && s1 == s.(ticks := s1.ticks, queues := s1.queues)
            && (forall u :: Queued(s1, u) <==> Queued(s, u))
            && (Q(s1, Runnable) == [] <==> Q(s, Runnable) == [] && Q(s, Sleeping) == [])
            && (Q(s, Runnable) != [] || Q(s, Sleeping) == [] ==> s1 == s)
  {
    WakeKeeps(clock, s);
  }

  lemma ParkKeeps(clock: Clock, s: State, kind: Kind)
    requires Rest(clock, s) && MayLeave(s, kind)
    ensures var s1 := Park(s, kind, s.current);
            && Rest(clock, s1) && Accounted(s1, s.current)
            && s1 == s.(queues := s1.queues)
  {
    assert ThreadOK(s, s.current);
    match kind
    case ForYield =>
      PushKeeps(clock, s, Runnable, s.current);
    case ForSleep =>
      PushKeeps(clock, s, Sleeping, s.current);
    case _ =>
  }

  /** schedule restores the whole invariant.  It finds nobody to run, and so crashes, exactly
      when the leaving thread blocks or exits and nothing is runnable or asleep. */
  lemma ScheduleKeeps(clock: Clock, s: State, kind: Kind)
    requires Rest(clock, s) && MayLeave(s, kind)
    ensures var s1 := Schedule(clock, s, kind);
            && Inv(clock, s1)
            && (s1.current == null <==>
                  kind in {ForExit, ForWait} && Q(s, Runnable) == [] && Q(s, Sleeping) == [])
  {
    var s1 := if kind == ForExit then WakeIfIdle(clock, s) else s;
    IdleKeeps(clock, s);
    var s2 := Park(s1, kind, s.current);
    ParkKeeps(clock, s1, kind);
    IdleKeeps(clock, s2);
    SwitchKeeps(clock, WakeIfIdle(clock, s2));
  }
}
