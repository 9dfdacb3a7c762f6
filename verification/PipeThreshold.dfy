/**
  The limit of one condition variable with notify_one: with twice as many producers as slots there is a
  run, of the original's own moves only, after which every thread sleeps and nobody will ever notify.
*/
module PipeThreshold {
  import opened Basics
  import opened PipeMonitor

  function Copies<T>(n: nat, x: T): seq<T> {
    seq(n, _ => x)
  }

  predicate Between(lo: nat, p: nat, hi: nat) { lo <= p < hi }

  function Range(lo: nat, hi: nat): set<nat> {
    set p: nat | p < hi && Between(lo, p, hi)
  }

  /** The states of the run: only how much is queued and who waits or is woken matters. */
  function Shape<T>(x: T, queued: nat, c: Consumer, waiting: set<nat>, woken: set<nat>, pushed: nat,
        popped: nat): Pipe<T> {
    Pipe(Copies(queued, x), false, c, map p | p in waiting :: x, map p | p in woken :: x, Copies(pushed, x),
      Copies(popped, x))
  }

  lemma Advance<T(!new)>(size: nat, producers: nat, s: Pipe<T>, a: Action<T>, t: Pipe<T>)
    requires Reachable(size, producers, s) && Enabled(size, producers, s, a) && Step(size, producers, s, a) == t
    ensures Reachable(size, producers, t)
  {
    LeadsByStep(size, producers, s, a);
    LeadsTransitive(size, producers, NewPipe(), s, t);
  }

  // 1. One producer fills the pipe.
  lemma {:induction false} Fill<T(!new)>(size: nat, producers: nat, x: T, i: nat)
    requires i <= size && 0 < producers
    ensures Reachable(size, producers, Shape(x, i, Outside, {}, {}, i, 0))
  {
    if i == 0 {
      assert Shape(x, 0, Outside, {}, {}, 0, 0) == NewPipe();
      assert Run(size, producers, NewPipe<T>(), [], NewPipe());
    } else {
      Fill(size, producers, x, i - 1);
      var s := Shape(x, i - 1, Outside, {}, {}, i - 1, 0);
      assert Copies(i - 1, x) + [x] == Copies(i, x);
      assert s.waiting == map[];
      Advance(size, producers, s, Push(0, x, Nobody), Shape(x, i, Outside, {}, {}, i, 0));
    }
  }

  // 2. All producers call Push and block.
  lemma {:induction false} Block<T(!new)>(size: nat, producers: nat, x: T, i: nat)
    requires i <= producers && 0 < producers
    ensures Reachable(size, producers, Shape(x, size, Outside, Range(0, i), {}, size, 0))
  {
    if i == 0 {
      Fill(size, producers, x, size);
      assert Range(0, 0) == {};
    } else {
      Block(size, producers, x, i - 1);
      Advance(size, producers, Shape(x, size, Outside, Range(0, i - 1), {}, size, 0), Push(i - 1, x, Nobody),
              Shape(x, size, Outside, Range(0, i), {}, size, 0));
    }
  }

  // 3. The consumer empties the pipe; each Pop notifies a producer that does not get to run yet.
  lemma {:induction false} Drain<T(!new)>(size: nat, producers: nat, x: T, i: nat)
    requires i <= size <= producers && 0 < producers
    ensures Reachable(size, producers, Shape(x, size - i, Outside, Range(i, producers), Range(0, i), size, i))
  {
    if i == 0 {
      Block(size, producers, x, producers);
      assert Range(0, 0) == {};
    } else {
      Drain(size, producers, x, i - 1);
      var s := Shape(x, size - (i - 1), Outside, Range(i - 1, producers), Range(0, i - 1), size, i - 1);
      assert s.queue[1..] == Copies(size - i, x);
      assert Copies(i - 1, x) + [x] == Copies(i, x);
      Advance(size, producers, s, Pop(Producer(i - 1)),
              Shape(x, size - i, Outside, Range(i, producers), Range(0, i), size, i));
    }
  }

  // 4. The consumer goes to sleep on the empty pipe; the woken producers push, each notifying another
  //    producer instead of the consumer.
  function Refilled<T>(size: nat, producers: nat, x: T, i: nat): Pipe<T> {
    Shape(x, i, Waiting, Range(size + i, producers), Range(i, size + i), size + i, size)
  }

  lemma {:induction false} Refill<T(!new)>(size: nat, producers: nat, x: T, i: nat)
    requires 0 < size && i <= size && 2 * size <= producers
    ensures Reachable(size, producers, Refilled(size, producers, x, i))
  {
    hide Step, Enabled, Refilled, Reachable;
    if i == 0 {
      FallAsleep(size, producers, x);
    } else {
      Refill(size, producers, x, i - 1);
      PushInstead(size, producers, x, i - 1);
      Advance(size, producers, Refilled(size, producers, x, i - 1), PushWoken(i - 1, Producer(size + i - 1)),
              Refilled(size, producers, x, i));
    }
  }

  lemma FallAsleep<T(!new)>(size: nat, producers: nat, x: T)
    requires 0 < size && 2 * size <= producers
    ensures Reachable(size, producers, Refilled(size, producers, x, 0))
  {
    Drain(size, producers, x, size);
    var s := Shape(x, 0, Outside, Range(size, producers), Range(0, size), size, size);
    Advance(size, producers, s, Pop(Nobody), s.(consumer := Waiting));
  }

  lemma PushInstead<T(!new)>(size: nat, producers: nat, x: T, i: nat)
    requires 0 < size && i < size && 2 * size <= producers
    ensures var s := Refilled(size, producers, x, i);
            var a := PushWoken(i, Producer(size + i));
            Enabled(size, producers, s, a) && Step(size, producers, s, a) == Refilled(size, producers, x, i + 1)
  {
    var s := Refilled(size, producers, x, i);
    assert s.woken[i] == x && s.waiting[size + i] == x;
    assert Enabled(size, producers, s, PushWoken(i, Producer(size + i)));
    assert s.queue + [x] == Copies(i + 1, x) && s.pushed + [x] == Copies(size + i + 1, x);
    var t := Refilled(size, producers, x, i + 1);
    assert s.waiting - {size + i} == t.waiting;
    assert (s.woken - {i})[size + i := x] == t.woken;
  }

  // 5. The pipe is full again: the producers that are running call Push and block, ...
  lemma {:induction false} BlockAgain<T(!new)>(size: nat, producers: nat, x: T, i: nat)
    requires 0 < size && i <= size && 2 * size <= producers
    ensures Reachable(size, producers,
                      Shape(x, size, Waiting, Range(0, i) + Range(2 * size, producers), Range(size, 2 * size),
                            2 * size, size))
  {
    if i == 0 {
      Refill(size, producers, x, size);
      assert Range(0, 0) + Range(2 * size, producers) == Range(size + size, producers);
    } else {
      BlockAgain(size, producers, x, i - 1);
      Advance(size, producers,
              Shape(x, size, Waiting, Range(0, i - 1) + Range(2 * size, producers), Range(size, 2 * size),
                    2 * size, size),
              Push(i - 1, x, Nobody),
              Shape(x, size, Waiting, Range(0, i) + Range(2 * size, producers), Range(size, 2 * size), 2 * size, size));
    }
  }

  // ... and the producers that were notified re-check, find no room, and go back to sleep.
  lemma {:induction false} SleepAgain<T(!new)>(size: nat, producers: nat, x: T, i: nat)
    requires 0 < size && size <= i <= 2 * size <= producers
    ensures Reachable(size, producers,
                      Shape(x, size, Waiting, Range(0, i) + Range(2 * size, producers), Range(i, 2 * size),
                            2 * size, size))
  {
    if i == size {
      BlockAgain(size, producers, x, size);
    } else {
      SleepAgain(size, producers, x, i - 1);
      Advance(size, producers,
              Shape(x, size, Waiting, Range(0, i - 1) + Range(2 * size, producers), Range(i - 1, 2 * size),
                    2 * size, size),
              PushWoken(i - 1, Nobody),
              Shape(x, size, Waiting, Range(0, i) + Range(2 * size, producers), Range(i, 2 * size), 2 * size, size));
    }
  }

  /** Streams exist, so the parameter `x` stands for any of them. */
  lemma DeadlockIff<T(!new)>(size: nat, producers: nat, x: T)
    requires 0 < size && 0 < producers
    ensures (exists s: Pipe<T> :: Reachable(size, producers, s) && AllAsleep(producers, s)) <==> producers >= 2 * size
  {
    if producers >= 2 * size {
      SleepAgain(size, producers, x, 2 * size);
      assert AllAsleep(producers, Shape(x, size, Waiting, Range(0, 2 * size) + Range(2 * size, producers),
                                        Range(2 * size, 2 * size), 2 * size, size));
    } else {
      forall s: Pipe<T> | Reachable(size, producers, s) ensures !AllAsleep(producers, s) {
        BelowThreshold(size, producers, s);
      }
    }
  }
}
