/** The body of `retryBuffer.run`: take a batch, join its writes into one body, and
    POST it until it settles, pausing longer after each failure. */
module RetryRun {
  import opened Basics
  import opened BatchList
  import BufferList

  // ---------------------------------------------------------------- pauses

  const RETRY_INITIAL: int := 500_000_000  // 500ms in nanoseconds
  const RETRY_MULTIPLIER: int := 2
  const TWO_63: int := 0x8000_0000_0000_0000

  /** A time.Duration is a signed 64-bit count of nanoseconds. */
  newtype Duration = x: int | -TWO_63 <= x < TWO_63

  /** Go's int64 multiplication wraps around. */
  function Wrap(x: int): Duration {
    ((x + TWO_63) % (2 * TWO_63) - TWO_63) as Duration
  }

  function NextInterval(interval: Duration, max: Duration): Duration {
    if interval == max then interval
    else
      var longer := Wrap(interval as int * RETRY_MULTIPLIER);
      if longer > max then max else longer
  }

  /** The pause after the n-th failure in a row. */
  function Interval(max: Duration, n: nat): Duration {
    if n == 0 then RETRY_INITIAL as Duration else NextInterval(Interval(max, n - 1), max)
  }

  function Pow2(n: nat): nat {
    if n == 0 then 1 else 2 * Pow2(n - 1)
  }

  function Min(a: int, b: int): int {
    if a <= b then a else b
  }

  /** The largest cap whose every doubling below it still fits an int64. */
  const LARGEST_CAP: int := RETRY_INITIAL * 0x4_0000_0000

  lemma {:induction false} Pow2Monotone(m: nat, n: nat)
    requires m <= n
    ensures Pow2(m) <= Pow2(n)
    decreases n - m
  {
    if m < n {
      Pow2Monotone(m + 1, n);
    }
  }

  lemma Pow2Of34()
    ensures Pow2(34) == 0x4_0000_0000
  {
    assert Pow2(10) == 1024;
    assert Pow2(20) == 0x10_0000;
    assert Pow2(30) == 0x4000_0000;
  }

  /** As long as no doubling overflows, the pause is the capped power of two. */
  lemma {:induction false} IntervalUpTo(max: Duration, n: nat)
    requires n >= 1
    requires max as int <= LARGEST_CAP || n <= 34
    ensures Interval(max, n) as int == Min(500_000_000 * Pow2(n), max as int)
  {
    if n > 1 {
      IntervalUpTo(max, n - 1);
      if RETRY_INITIAL * Pow2(n - 1) < max as int {
        DoublingFits(max, n - 1);
      }
    } else {
      assert Pow2(1) == 2;
      assert Interval(max, 0) as int == RETRY_INITIAL;
    }
  }

  /** A pause below the cap can be doubled without overflow. */
  lemma DoublingFits(max: Duration, n: nat)
    requires max as int <= LARGEST_CAP || n < 34
    requires RETRY_INITIAL * Pow2(n) < max as int
    ensures RETRY_INITIAL * Pow2(n) * 2 < TWO_63
  {
    Pow2Of34();
    if n >= 34 {
      Pow2Monotone(34, n);
    } else {
      Pow2Monotone(n, 33);
      assert Pow2(34) == 2 * Pow2(33);
    }
  }

  /** The pauses are min(500ms * 2^n, cap) for every n exactly when the cap does not
      exceed 500ms * 2^34, about 272 years. */
  lemma BackoffExact(max: Duration)
    ensures (forall n: nat :: n >= 1 ==> Interval(max, n) as int == Min(500_000_000 * Pow2(n), max as int))
            <==> max as int <= 500_000_000 * 0x4_0000_0000
  {
    if max as int <= LARGEST_CAP {
      forall n: nat | n >= 1
        ensures Interval(max, n) as int == Min(500_000_000 * Pow2(n), max as int)
      {
        IntervalUpTo(max, n);
      }
    } else {
      Pow2Of34();
      IntervalUpTo(max, 34);
      assert Pow2(35) == 2 * Pow2(34);
      assert Interval(max, 35) < 0;
      assert Interval(max, 35) as int != Min(RETRY_INITIAL * Pow2(35), max as int);
    }
  }

  /** Above that cap the 35th pause is negative, so the next attempt follows at once. */
  lemma BackoffOverflows(max: Duration)
    requires max as int > 500_000_000 * 0x4_0000_0000
    ensures Interval(max, 34) as int == 500_000_000 * 0x4_0000_0000 && Interval(max, 35) < 0
  {
    Pow2Of34();
    IntervalUpTo(max, 34);
  }

  /** From the first pause on, pauses never get shorter. */
  lemma BackoffMonotone(max: Duration, m: nat, n: nat)
    requires max as int <= LARGEST_CAP && 1 <= m <= n
    ensures Interval(max, m) <= Interval(max, n)
  {
    IntervalUpTo(max, m);
    IntervalUpTo(max, n);
    Pow2Monotone(m, n);
  }

  /** Pauses of the closed form, for caps without overflow. */
  predicate Capped(max: Duration, pauses: seq<Duration>) {
    max as int <= LARGEST_CAP ==>
      forall n :: 0 <= n < |pauses| ==> pauses[n] as int == Min(500_000_000 * Pow2(n + 1), max as int)
  }

  lemma ClosedForm(max: Duration, pauses: seq<Duration>)
    requires forall n :: 0 <= n < |pauses| ==> pauses[n] == Interval(max, n + 1)
    ensures Capped(max, pauses)
  {
    if max as int <= LARGEST_CAP {
      forall n | 0 <= n < |pauses|
        ensures pauses[n] as int == Min(500_000_000 * Pow2(n + 1), max as int)
      {
        IntervalUpTo(max, n + 1);
      }
    }
  }

  // ---------------------------------------------------------------- one round of run

  /** How many of the answers come before the first that settles the batch. */
  function Failures(answers: seq<Outcome>): (n: nat)
    ensures n <= |answers|
    ensures forall i :: 0 <= i < n ==> !Settles(answers[i])
    ensures n < |answers| ==> Settles(answers[n])
  {
    if answers == [] || Settles(answers[0]) then 0 else 1 + Failures(answers[1..])
  }

  lemma {:induction false} FailuresIs(answers: seq<Outcome>, n: nat)
    requires n <= |answers| && forall i :: 0 <= i < n ==> !Settles(answers[i])
    requires n < |answers| ==> Settles(answers[n])
    ensures Failures(answers) == n
  {
    if n > 0 {
      FailuresIs(answers[1..], n - 1);
    }
  }

  /** After `before`, one POST per answer of one and the same body, until one settles or
      the answers run out; none after that. */
  predicate PostsUntilSettled(before: seq<Posted>, after: seq<Posted>, k: Key, body: Bytes,
                              answers: seq<Outcome>, settled: bool) {
    && before <= after
    && |after| - |before| <= |answers|
    && (forall i :: 0 <= i < |after| - |before| ==> after[|before| + i] == Posted(k, body, answers[i]))
    && (forall i :: 0 <= i < |after| - |before| ==>
          (Settles(answers[i]) <==> settled && i == |after| - |before| - 1))
    && (if settled then |after| > |before| else |after| - |before| == |answers|)
  }

  class RetryBuffer {
    var buffering: bool
    ghost var log: seq<Posted>  // the POSTs of `run`, in order
    const maxInterval: Duration
    const list: BufferList.BufferList

    constructor (maxSize: int, maxBatch: int, maxInterval: Duration)
      ensures !buffering && log == [] && fresh(list) && list.Valid() && list.View() == []
    {
      buffering, log := false, [];
      this.maxInterval := maxInterval;
      list := new BufferList.BufferList(maxSize, maxBatch);
    }

    /** The copy loop: the body is the writes in the order they joined the batch. */
    method Collect(b: BufferList.BatchNode) returns (body: Bytes)
      ensures body == Body(b.bufs)
    {
      body := [];
      for i := 0 to |b.bufs|
        invariant body == Body(b.bufs[..i])
      {
        assert b.bufs[..i + 1] == b.bufs[..i] + [b.bufs[i]];
        BodyAppend(b.bufs[..i], b.bufs[i]);
        body := body + b.bufs[i].data;
      }
      assert b.bufs[..|b.bufs|] == b.bufs;
    }

    /** The retry loop against the answers the backend gives, for as long as they last.
        A settling answer is stored before the waiters are released, and the first one
        is the last POST of the batch; until then nothing is visible to the waiters.
        Every POST carries the same body with the key of the batch, and after a POST
        that settles there is none. */
    method Deliver(b: BufferList.BatchNode, body: Bytes, answers: seq<Outcome>)
      returns (settled: bool, pauses: seq<Duration>)
      modifies `buffering, `log, b`resp, b`wg
      ensures PostsUntilSettled(old(log), log, b.key, body, answers, settled)
      ensures |log| == |old(log)| + |pauses| + (if settled then 1 else 0)
      ensures settled <==> Failures(answers) < |answers|
      ensures |pauses| == Failures(answers)
      ensures forall n :: 0 <= n < |pauses| ==> pauses[n] == Interval(maxInterval, n + 1)
      ensures Capped(maxInterval, pauses)
      ensures settled ==>
        && b.resp == Some(answers[Failures(answers)].resp)
        && b.wg == old(b.wg) - 1
        && !buffering
      ensures !settled ==> b.resp == old(b.resp) && b.wg == old(b.wg) && buffering == old(buffering)
    {
      settled, pauses := false, [];
      var interval := RETRY_INITIAL as Duration;
      for i := 0 to |answers|
        invariant !settled && |pauses| == i
        invariant forall j :: 0 <= j < i ==> !Settles(answers[j])
        invariant interval == Interval(maxInterval, i)
        invariant forall n :: 0 <= n < i ==> pauses[n] == Interval(maxInterval, n + 1)
        invariant |log| == |old(log)| + i && old(log) <= log
        invariant forall j :: 0 <= j < i ==> log[|old(log)| + j] == Posted(b.key, body, answers[j])
        invariant b.resp == old(b.resp) && b.wg == old(b.wg) && buffering == old(buffering)
      {
        log := log + [Posted(b.key, body, answers[i])];
        if Settles(answers[i]) {
          b.resp := Some(answers[i].resp);
          buffering := false;
          b.wg := b.wg - 1;
          settled := true;
          break;
        }
        if interval != maxInterval {
          interval := Wrap(interval as int * RETRY_MULTIPLIER);
          if interval > maxInterval {
            interval := maxInterval;
          }
        }
        pauses := pauses + [interval];
      }
      FailuresIs(answers, |pauses|);
      ClosedForm(maxInterval, pauses);
    }

    /** One round: exactly the head batch leaves the queue, and what is POSTed is all of
        its writes, in order. */
    method Round(answers: seq<Outcome>)
      returns (b: BufferList.BatchNode, body: Bytes, settled: bool, pauses: seq<Duration>)
      requires list.Valid() && list.size != 0
      modifies this, list, list.spine
      ensures list.Valid()
      ensures old(list.View()) != [] && list.View() == old(list.View())[1..]
      ensures b == old(list.spine)[0] && body == Body(old(list.View())[0].bufs)
      ensures PostsUntilSettled(old(log), log, old(list.View())[0].key, body, answers, settled)
      ensures |log| == |old(log)| + |pauses| + (if settled then 1 else 0)
      ensures settled <==> Failures(answers) < |answers|
      ensures |pauses| == Failures(answers)
      ensures forall n :: 0 <= n < |pauses| ==> pauses[n] == Interval(maxInterval, n + 1)
      ensures Capped(maxInterval, pauses)
      ensures settled ==>
        b.resp == Some(answers[Failures(answers)].resp) && b.wg == old(list.View())[0].wg - 1 && !buffering
    {
      ghost var view := list.View();
      b := list.Pop();
      assert b.Val() == view[0];
      body := Collect(b);
      ghost var rest := list.View();
      settled, pauses := Deliver(b, body, answers);
      assert list.View() == rest;
    }
  }
}
