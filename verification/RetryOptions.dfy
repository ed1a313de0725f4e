/** What the buffering options of an output mean, in bytes and over runs. */
module RetryOptions {
  import opened Basics
  import opened BatchList
  import opened RetryMachine
  import opened RetryInvariants
  import opened RetryTheorems
  import opened RetryRaces
  import opened RetryMemory
  import RetryOrder

  /** A write of n - 1 bytes and one of a single byte, of the same key, share a batch. */
  lemma FillsBatch(cfg: Config, n: nat) returns (s: State)
    requires cfg.buffered && 1 <= n <= cfg.maxBatch && n <= cfg.maxSize
    ensures Reachable(cfg, s)
    ensures |s.list| == 1 && |s.list[0].bufs| == 2 && s.list[0].size == n && s.size == n
  {
    var k := Key("", "");
    var w0, w1 := Write(0, 0, seq(n - 1, _ => 0)), Write(1, 1, [0]);
    var heap: Heap := map[0 := w0.data, 1 := w1.data];
    var posts := map[0 := Post(w0, k, Started, false), 1 := Post(w1, k, Started, false)];
    TwoBegun(cfg, w0, k, w1, k, heap);
    s := OneAdded(cfg, posts, w0, k, heap);
    LeadsReachable(cfg, heap, Begun(posts), s);
    StepReachable(cfg, s, Load(1), heap);
    var t := Apply(cfg, s, Load(1), heap);
    StepReachable(cfg, t, Add(1), heap);
    s := Apply(cfg, t, Add(1), heap);
  }

  /** So many bytes can be queued, and never more. */
  ghost predicate QueuesUpTo(cfg: Config, bytes: int) {
    && (forall s :: Reachable(cfg, s) ==> s.size <= bytes)
    && (exists s :: Reachable(cfg, s) && s.size == bytes)
  }

  lemma FillsQueue(cfg: Config) returns (s: State)
    requires cfg.buffered && cfg.maxSize >= 1
    ensures Reachable(cfg, s) && s.size == cfg.maxSize
  {
    var w, k := Write(0, 0, seq(cfg.maxSize, _ => 0)), Key("", "");
    var heap: Heap := map[0 := w.data];
    var posts := map[0 := Post(w, k, Started, false)];
    OneBegun(cfg, w, k, heap);
    s := OneAdded(cfg, posts, w, k, heap);
    LeadsReachable(cfg, heap, Begun(posts), s);
  }

  /** buffer-size-mb = m, for m > 0, is the most that is ever queued, in units of 1048576
      bytes, and is reached; twice as much may be held. Otherwise nothing is buffered. */
  lemma BufferSizeOption(output: Output)
    ensures output.bufferSizeMB > 0 ==>
      && QueuesUpTo(NewBackend(output), output.bufferSizeMB * 1048576)
      && exists s :: Reachable(NewBackend(output), s) && Held(s) == 2 * output.bufferSizeMB * 1048576
    ensures output.bufferSizeMB <= 0 ==> forall s :: Reachable(NewBackend(output), s) ==> s.accepted == []
  {
    var cfg := NewBackend(output);
    forall s | Reachable(cfg, s)
      ensures output.bufferSizeMB > 0 ==> s.size <= output.bufferSizeMB * 1048576
      ensures output.bufferSizeMB <= 0 ==> s.accepted == []
    {
      if output.bufferSizeMB > 0 {
        SpaceAccounting(cfg, s);
      } else {
        RetryOrder.UnbufferedAcceptsNothing(cfg, s);
      }
    }
    if output.bufferSizeMB > 0 {
      var s := FillsQueue(cfg);
      var t := HoldsTwice(cfg);
    }
  }

  /** max-batch-kb in bytes; 512 KB if it is not set. */
  function BatchLimit(output: Output): int {
    if output.maxBatchKB > 0 then output.maxBatchKB * 1024 else 524288
  }

  /** A batch of several writes that is queued or in hand. */
  predicate Batched(s: State, b: Batch) {
    |b.bufs| >= 2 && (b in s.list || (s.InFlight() && s.popped != [] && b == s.popped[|s.popped| - 1]))
  }

  lemma QueuedFits(cfg: Config, s: State, i: nat)
    requires QueueOk(s.list, s.size, cfg.maxSize, cfg.maxBatch) && cfg.maxSize >= 0
    requires i < |s.list| && |s.list[i].bufs| >= 2
    ensures |Body(s.list[i].bufs)| <= cfg.maxBatch && |Body(s.list[i].bufs)| <= cfg.maxSize
  {
    PackedAt(s.list, cfg.maxBatch, i);
    SizesAt(s.list, cfg.maxBatch, i);
  }

  lemma BatchedFits(cfg: Config, s: State, b: Batch)
    requires Reachable(cfg, s) && Batched(s, b) && cfg.maxSize >= 0
    ensures |Body(b.bufs)| <= cfg.maxBatch && |Body(b.bufs)| <= cfg.maxSize
  {
    if b in s.list {
      ReachableQueueOk(cfg, s);
      var i :| 0 <= i < |s.list| && s.list[i] == b;
      QueuedFits(cfg, s, i);
    } else {
      ReachableHandFits(cfg, s);
    }
  }

  /** A POST joins several writes only up to max-batch-kb * 1024 bytes, 524288 by default,
      or to the size of the buffer if that is less; and up to there it does. */
  lemma MaxBatchOption(output: Output)
    requires output.bufferSizeMB > 0
    ensures var cfg, bytes := NewBackend(output), Least(BatchLimit(output), output.bufferSizeMB * 1048576);
            && (forall s, b :: Reachable(cfg, s) && Batched(s, b) ==> |Body(b.bufs)| <= bytes)
            && (exists s, b :: Reachable(cfg, s) && Batched(s, b) && |Body(b.bufs)| == bytes)
  {
    var cfg, bytes := NewBackend(output), Least(BatchLimit(output), output.bufferSizeMB * 1048576);
    forall s, b | Reachable(cfg, s) && Batched(s, b)
      ensures |Body(b.bufs)| <= bytes
    {
      BatchedFits(cfg, s, b);
    }
    var s := FillsBatch(cfg, bytes);
    ReachableQueueOk(cfg, s);
    PackedAt(s.list, cfg.maxBatch, 0);
    assert Batched(s, s.list[0]);
  }

  function Least(a: int, b: int): int {
    if a <= b then a else b
  }
}
