/**
  common/media/Pipe.cpp: a bounded FIFO guarded by one mutex, with one condition variable on which
  producers and the consumer wait and which is signalled with notify_one.

  A thread's visible moves are the stretches it executes while holding the mutex: from the call, or from
  being woken, up to the return or up to the next wait.  A waiting thread has not been notified yet; a
  woken one has been (or was woken spuriously) and will re-check its condition when it gets the mutex.
*/
module PipeMonitor {
  import opened Basics

  /** The single consumer of a pipe. */
  datatype Consumer = Outside | Waiting | Woken

  datatype Pipe<T> = Pipe(
    queue: seq<T>,
    cancelled: bool,
    consumer: Consumer,
    waiting: map<nat, T>,   // producers in cv.wait, not notified, with the stream each one wants to push
    woken: map<nat, T>,     // producers notified but not yet running
    pushed: seq<T>,         // history: every stream that ever entered the queue
    popped: seq<T>          // history: every stream that ever left it
  )

  function NewPipe<T>(): Pipe<T> {
    Pipe([], false, Outside, map[], map[], [], [])
  }

  // --- notification -------------------------------------------------------------------------------

  /** Which waiter notify_one wakes. The scheduler chooses; nobody is chosen only if nobody waits. */
  datatype Pick = Nobody | TheConsumer | Producer(p: nat)

  predicate CanPick<T>(s: Pipe<T>, k: Pick) {
    match k
    case Nobody => !s.consumer.Waiting? && s.waiting == map[]
    case TheConsumer => s.consumer.Waiting?
    case Producer(p) => p in s.waiting
  }

  function Notify<T>(s: Pipe<T>, k: Pick): Pipe<T>
    requires CanPick(s, k)
  {
    match k
    case Nobody => s
    case TheConsumer => s.(consumer := Woken)
    case Producer(p) => s.(waiting := s.waiting - {p}, woken := s.woken[p := s.waiting[p]])
  }

  // --- the critical sections ------------------------------------------------------------------------

  predicate PushBlocks<T>(size: nat, s: Pipe<T>) {
    !s.cancelled && |s.queue| >= size
  }

  /** Push by a thread that is running: wait, or enqueue and notify. */
  function PushSection<T>(size: nat, s: Pipe<T>, p: nat, x: T, k: Pick): Pipe<T>
    requires !PushBlocks(size, s) ==> CanPick(s, k)
  {
    if PushBlocks(size, s) then s.(waiting := s.waiting[p := x])
    else Notify(s, k).(queue := s.queue + [x], pushed := s.pushed + [x])
  }

  predicate PopBlocks<T>(s: Pipe<T>) {
    !s.cancelled && s.queue == []
  }

  /** Pop by the running consumer: wait, or dequeue and notify. A cancelled empty pipe has no front to take. */
  function PopSection<T>(s: Pipe<T>, k: Pick): Pipe<T>
    requires !PopBlocks(s) ==> s.queue != [] && CanPick(s.(consumer := Outside), k)
  {
    if PopBlocks(s) then s.(consumer := Waiting)
    else
      Notify(s.(consumer := Outside), k).(queue := s.queue[1..], popped := s.popped + [s.queue[0]])
  }

  /** What a notification can change for the threads, whoever it wakes. */
  lemma NotifyEffect<T>(s: Pipe<T>, k: Pick)
    requires CanPick(s, k)
    ensures var t := Notify(s, k);
      && (t.consumer == s.consumer || (s.consumer.Waiting? && t.consumer.Woken?))
      && (forall p :: p in t.waiting ==> p in s.waiting && t.waiting[p] == s.waiting[p])
      && (forall p :: p in t.woken ==>
            (p in s.waiting && t.woken[p] == s.waiting[p]) || (p in s.woken && t.woken[p] == s.woken[p]))
      && (t.queue, t.cancelled, t.pushed, t.popped) == (s.queue, s.cancelled, s.pushed, s.popped)
  {
  }

  // --- steps ----------------------------------------------------------------------------------------

  datatype Action<T> =
    | Push(p: nat, x: T, k: Pick)   // a thread calls Push
    | PushWoken(p: nat, k: Pick)    // a woken producer gets the mutex back
    | Pop(k: Pick)
    | PopWoken(k: Pick)
    | Spurious(who: Pick)
    | Cancel

  /** With `producers` threads numbered from 0. */
  predicate Enabled<T>(size: nat, producers: nat, s: Pipe<T>, a: Action<T>) {
    match a
    case Push(p, x, k) =>
      p < producers && p !in s.waiting && p !in s.woken && (!PushBlocks(size, s) ==> CanPick(s, k))
    case PushWoken(p, k) =>
      p in s.woken && (!PushBlocks(size, s) ==> CanPick(s, k))
    case Pop(k) =>
      s.consumer.Outside? && (!PopBlocks(s) ==> s.queue != [] && CanPick(s, k))
    case PopWoken(k) =>
      s.consumer.Woken? && (!PopBlocks(s) ==> s.queue != [] && CanPick(s, k))
    case Spurious(who) => !who.Nobody? && CanPick(s, who)
    case Cancel => true
  }

  function Step<T>(size: nat, producers: nat, s: Pipe<T>, a: Action<T>): Pipe<T>
    requires Enabled(size, producers, s, a)
  {
    match a
    case Push(p, x, k) => PushSection(size, s, p, x, k)
    case PushWoken(p, k) =>
      if PushBlocks(size, s) then s.(waiting := s.waiting[p := s.woken[p]], woken := s.woken - {p})
      else
        var t := PushSection(size, s, p, s.woken[p], k);
        t.(woken := t.woken - {p})
    case Pop(k) => PopSection(s, k)
    case PopWoken(k) => PopSection(s, k)
    case Spurious(who) => Notify(s, who)
    case Cancel =>
      s.(cancelled := true, consumer := if s.consumer.Waiting? then Woken else s.consumer,
         waiting := map[], woken := s.woken + s.waiting)
  }

  /** What any finite run of any threads can lead to. */
  ghost predicate Run<T>(size: nat, producers: nat, s: Pipe<T>, acts: seq<Action<T>>, t: Pipe<T>)
    decreases |acts|
  {
    if acts == [] then s == t
    else Enabled(size, producers, s, acts[0]) && Run(size, producers, Step(size, producers, s, acts[0]), acts[1..], t)
  }

  ghost predicate Leads<T(!new)>(size: nat, producers: nat, s: Pipe<T>, t: Pipe<T>) {
    exists acts :: Run(size, producers, s, acts, t)
  }

  ghost predicate Reachable<T(!new)>(size: nat, producers: nat, s: Pipe<T>) {
    Leads(size, producers, NewPipe(), s)
  }

  lemma {:induction false} RunAppend<T>(size: nat, producers: nat, s: Pipe<T>, a: seq<Action<T>>, t: Pipe<T>,
        b: seq<Action<T>>, u: Pipe<T>)
    requires Run(size, producers, s, a, t) && Run(size, producers, t, b, u)
    ensures Run(size, producers, s, a + b, u)
    decreases |a|
  {
    if a == [] {
      assert a + b == b;
    } else {
      assert (a + b)[0] == a[0] && (a + b)[1..] == a[1..] + b;
      RunAppend(size, producers, Step(size, producers, s, a[0]), a[1..], t, b, u);
    }
  }

  lemma LeadsTransitive<T(!new)>(size: nat, producers: nat, s: Pipe<T>, t: Pipe<T>, u: Pipe<T>)
    requires Leads(size, producers, s, t) && Leads(size, producers, t, u)
    ensures Leads(size, producers, s, u)
  {
    var a :| Run(size, producers, s, a, t);
    var b :| Run(size, producers, t, b, u);
    RunAppend(size, producers, s, a, t, b, u);
  }

  lemma LeadsByStep<T(!new)>(size: nat, producers: nat, s: Pipe<T>, a: Action<T>)
    requires Enabled(size, producers, s, a)
    ensures Leads(size, producers, s, Step(size, producers, s, a))
  {
    var t := Step(size, producers, s, a);
    assert Run(size, producers, t, [], t);
    assert Run(size, producers, s, [a], t);
  }

  // --- what every run keeps ---------------------------------------------------------------------------

  /** FIFO: what went in is what came out followed by what is still inside; the size bound holds until Cancel. */
  ghost predicate Fifo<T>(size: nat, producers: nat, s: Pipe<T>) {
    && s.pushed == s.popped + s.queue
    && (!s.cancelled ==> |s.queue| <= size)
    && (s.cancelled ==> s.waiting == map[] && !s.consumer.Waiting?)
    && s.waiting.Keys !! s.woken.Keys
    && (forall p :: p in s.waiting || p in s.woken ==> p < producers)
  }

  lemma FifoStep<T>(size: nat, producers: nat, s: Pipe<T>, a: Action<T>)
    requires Fifo(size, producers, s) && Enabled(size, producers, s, a)
    ensures Fifo(size, producers, Step(size, producers, s, a))
  {
  }

  /** The same for the counting argument behind notify_one; `extra` is how many producers exceed the pipe's size. */
  ghost predicate NoLostWakeup<T>(size: nat, producers: nat, s: Pipe<T>) {
    !s.cancelled ==>
      var extra := if producers > size then producers - size else 0;
      && |s.waiting| <= |s.queue| + extra
      && (s.consumer.Waiting? ==> |s.waiting| + |s.queue| <= extra)
  }

  /** A woken producer that gets the mutex either goes back to sleep or leaves its stream at the end of the queue. */
  lemma PushWokenEffect<T>(size: nat, producers: nat, s: Pipe<T>, p: nat, k: Pick)
    requires Fifo(size, producers, s) && Enabled(size, producers, s, PushWoken(p, k))
    ensures var t := Step(size, producers, s, PushWoken(p, k));
      && t.cancelled == s.cancelled && t.popped == s.popped && p !in t.woken
      && (PushBlocks(size, s) ==> t.queue == s.queue && t.consumer == s.consumer && p in t.waiting)
      && (!PushBlocks(size, s) ==>
            && t.queue == s.queue + [s.woken[p]] && p !in t.waiting
            && (t.consumer == s.consumer || (s.consumer.Waiting? && t.consumer.Woken?)))
  {
    if !PushBlocks(size, s) {
      NotifyEffect(s, k);
      hide Notify;
    }
  }

  lemma {:induction false} BoundedSet(s: set<nat>, n: nat)
    requires forall p :: p in s ==> p < n
    ensures |s| <= n
  {
    if n > 0 {
      BoundedSet(s - {n - 1}, n - 1);
    } else {
      assert s == {};
    }
  }

  lemma WaitersFit<T>(size: nat, producers: nat, s: Pipe<T>, p: nat)
    requires Fifo(size, producers, s) && p < producers && p !in s.waiting
    ensures |s.waiting| < producers
  {
    BoundedSet(s.waiting.Keys + {p}, producers);
    assert |s.waiting.Keys + {p}| == |s.waiting.Keys| + 1;
  }

  lemma NotifyCounts<T>(s: Pipe<T>, k: Pick)
    requires CanPick(s, k)
    ensures |Notify(s, k).waiting| == if k.Producer? then |s.waiting| - 1 else |s.waiting|
    ensures k.Producer? ==> |s.waiting| > 0
    ensures |s.waiting| == 0 ==> s.waiting == map[]
  {
    if k.Producer? {
      assert (s.waiting - {k.p}).Keys == s.waiting.Keys - {k.p};
      assert |s.waiting.Keys - {k.p}| == |s.waiting.Keys| - 1;
    }
  }

  /** Below twice the pipe's size, every step keeps the count of waiting producers under what the queue owes them. */
  lemma NoLostWakeupStep<T>(size: nat, producers: nat, s: Pipe<T>, a: Action<T>)
    requires producers < 2 * size
    requires Fifo(size, producers, s) && NoLostWakeup(size, producers, s) && Enabled(size, producers, s, a)
    ensures NoLostWakeup(size, producers, Step(size, producers, s, a))
  {
    if !s.cancelled && !a.Cancel? {
      match a
      case Push(p, x, k) =>
        WaitersFit(size, producers, s, p);
        if PushBlocks(size, s) { MapGrows(s.waiting, p, x); } else { NotifyCounts(s, k); }
      case PushWoken(p, k) =>
        WaitersFit(size, producers, s, p);
        if PushBlocks(size, s) { MapGrows(s.waiting, p, s.woken[p]); } else { NotifyCounts(s, k); }
      case Pop(k) => if !PopBlocks(s) { NotifyCounts(s, k); }
      case PopWoken(k) => if !PopBlocks(s) { NotifyCounts(s, k); }
      case Spurious(who) => NotifyCounts(s, who);
    }
  }

  lemma EmptyMap<T>(m: map<nat, T>)
    ensures |m| == 0 <==> m == map[]
  {
    if m != map[] {
      var p :| p in m;
      assert p in m.Keys;
    }
  }

  /** The scheduler always has an answer to notify_one. */
  ghost function SomePick<T>(s: Pipe<T>): (k: Pick)
    ensures CanPick(s, k)
  {
    EmptyMap(s.waiting);
    if s.consumer.Waiting? then TheConsumer
    else if s.waiting == map[] then Nobody
    else
      var p :| p in s.waiting;
      Producer(p)
  }

  lemma MapGrows<T>(m: map<nat, T>, p: nat, x: T)
    requires p !in m
    ensures |m[p := x]| == |m| + 1
  {
    assert m[p := x].Keys == m.Keys + {p};
  }

  lemma {:induction false} RunKeeps<T>(size: nat, producers: nat, s: Pipe<T>, acts: seq<Action<T>>, t: Pipe<T>)
    requires Run(size, producers, s, acts, t) && Fifo(size, producers, s)
    ensures Fifo(size, producers, t)
    ensures producers < 2 * size && NoLostWakeup(size, producers, s) ==> NoLostWakeup(size, producers, t)
    decreases |acts|
  {
    if acts == [] {
    } else {
      var u := Step(size, producers, s, acts[0]);
      FifoStep(size, producers, s, acts[0]);
      if producers < 2 * size && NoLostWakeup(size, producers, s) {
        NoLostWakeupStep(size, producers, s, acts[0]);
      }
      RunKeeps(size, producers, u, acts[1..], t);
    }
  }

  // --- main results -----------------------------------------------------------------------------------

  /** In every run nothing is lost, duplicated or reordered, the bound holds, and Cancel leaves nobody waiting. */
  lemma ReachableIsFifo<T(!new)>(size: nat, producers: nat, s: Pipe<T>)
    requires Reachable(size, producers, s)
    ensures s.pushed == s.popped + s.queue
    ensures !s.cancelled ==> |s.queue| <= size
    ensures s.cancelled ==> s.waiting == map[] && !s.consumer.Waiting?
  {
    var acts :| Run(size, producers, NewPipe(), acts, s);
    RunKeeps(size, producers, NewPipe(), acts, s);
  }

  /**
    With no more producers than slots - the real use is two producers and four slots - a producer that
    sleeps is always owed a wakeup by a queued stream, and the consumer sleeps only on an empty pipe with
    no producer asleep.
  */
  lemma NoLostWakeups<T(!new)>(size: nat, producers: nat, s: Pipe<T>)
    requires 0 < size && producers <= size && Reachable(size, producers, s) && !s.cancelled
    ensures |s.waiting| <= |s.queue| <= size
    ensures s.consumer.Waiting? ==> s.queue == [] && s.waiting == map[]
  {
    var acts :| Run(size, producers, NewPipe(), acts, s);
    RunKeeps(size, producers, NewPipe(), acts, s);
    EmptyMap(s.waiting);
  }

  /** Every thread that uses the pipe is in cv.wait and none has been notified. */
  ghost predicate AllAsleep<T>(producers: nat, s: Pipe<T>) {
    s.consumer.Waiting? && forall p: nat :: p < producers ==> p in s.waiting
  }

  lemma {:induction false} FullSet(s: set<nat>, n: nat)
    requires forall p: nat :: p < n ==> p in s
    ensures |s| >= n
  {
    if n > 0 {
      FullSet(s - {n - 1}, n - 1);
      assert |s - {n - 1}| == |s| - 1;
    }
  }

  lemma BelowThreshold<T(!new)>(size: nat, producers: nat, s: Pipe<T>)
    requires 0 < producers < 2 * size && Reachable(size, producers, s)
    ensures !AllAsleep(producers, s)
  {
    var acts :| Run(size, producers, NewPipe(), acts, s);
    RunKeeps(size, producers, NewPipe(), acts, s);
    if AllAsleep(producers, s) {
      FullSet(s.waiting.Keys, producers);
    }
  }

  // --- the object -------------------------------------------------------------------------------------

  /**
    The Pipe object itself.  Its methods are the stretches a thread executes under the mutex; `p` is the
    calling producer and `k` the scheduler's answer to notify_one.  Each is one step of the system above.
  */
  class SharedPipe<T> {
    const size: nat
    var queue: seq<T>
    var cancelled: bool
    // the condition variable
    var consumer: Consumer
    var waiting: map<nat, T>
    var woken: map<nat, T>
    var pushed: seq<T>          // history
    var popped: seq<T>          // history

    function View(): Pipe<T>
      reads this
    {
      Pipe(queue, cancelled, consumer, waiting, woken, pushed, popped)
    }

    constructor (size: nat)
      ensures this.size == size && View() == NewPipe()
    {
      this.size, queue, cancelled := size, [], false;
      consumer, waiting, woken, pushed, popped := Outside, map[], map[], [], [];
    }

    method NotifyOne(k: Pick)
      requires CanPick(View(), k)
      modifies this`consumer, this`waiting, this`woken
      ensures View() == Notify(old(View()), k)
    {
      match k {
        case Nobody =>
        case TheConsumer => consumer := Woken;
        case Producer(p) =>
          woken := woken[p := waiting[p]];
          waiting := waiting - {p};
      }
    }

    method Push(ghost producers: nat, p: nat, x: T, k: Pick) returns (returned: bool)
      requires Enabled(size, producers, View(), Action.Push(p, x, k))
      modifies this
      ensures View() == Step(size, producers, old(View()), Action.Push(p, x, k))
      ensures returned == (old(cancelled) || |old(queue)| < size)
      ensures queue == if returned then old(queue) + [x] else old(queue)
    {
      if !cancelled && |queue| >= size {
        waiting := waiting[p := x];
        return false;
      }
      queue := queue + [x];
      pushed := pushed + [x];
      NotifyOne(k);
      return true;
    }

    method PushWoken(ghost producers: nat, p: nat, k: Pick) returns (returned: bool)
      requires Fifo(size, producers, View())
      requires Enabled(size, producers, View(), Action.PushWoken(p, k))
      modifies this
      ensures View() == Step(size, producers, old(View()), Action.PushWoken(p, k))
      ensures returned == (old(cancelled) || |old(queue)| < size)
      ensures queue == if returned then old(queue) + [old(woken)[p]] else old(queue)
    {
      var x := woken[p];
      woken := woken - {p};
      if !cancelled && |queue| >= size {
        waiting := waiting[p := x];
        return false;
      }
      queue := queue + [x];
      pushed := pushed + [x];
      NotifyOne(k);
      returned := true;
      assert woken == Step(size, producers, old(View()), Action.PushWoken(p, k)).woken;
    }

    /** Also the continuation of a woken consumer: `result` is None while it has to wait. */
    method Pop(ghost producers: nat, k: Pick) returns (result: Option<T>)
      requires consumer.Outside? ==> Enabled(size, producers, View(), Action.Pop(k))
      requires !consumer.Outside? ==> Enabled(size, producers, View(), Action.PopWoken(k))
      modifies this
      ensures old(consumer).Outside? ==> View() == Step(size, producers, old(View()), Action.Pop(k))
      ensures old(consumer).Woken? ==> View() == Step(size, producers, old(View()), Action.PopWoken(k))
      ensures result == if !old(cancelled) && old(queue) == [] then None else Some(old(queue)[0])
    {
      if !cancelled && |queue| == 0 {
        consumer := Waiting;
        return None;
      }
      consumer := Outside;
      result := Some(queue[0]);
      popped := popped + [queue[0]];
      queue := queue[1..];
      NotifyOne(k);
    }

    method Cancel(ghost producers: nat)
      modifies this
      ensures View() == Step(size, producers, old(View()), Action.Cancel)
    {
      cancelled := true;
      if consumer.Waiting? {
        consumer := Woken;
      }
      woken := woken + waiting;
      waiting := map[];
    }
  }
}
