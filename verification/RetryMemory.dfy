/** How much point data a retry buffer holds: the queue, and the batch in hand, which no
    longer counts against the limit. */
module RetryMemory {
  import opened Basics
  import opened Sums
  import opened BatchList
  import opened RetryMachine
  import opened RetryInvariants
  import opened RetryTheorems
  import opened RetryRaces
  import RetryOrder

  /** Bytes of the writes in the batch in hand. */
  function InHandBytes(s: State): nat {
    if s.InFlight() && s.popped != [] then |Body(s.popped[|s.popped| - 1].bufs)| else 0
  }

  function Held(s: State): int {
    s.size + InHandBytes(s)
  }

  /** The batch in hand has once counted against both limits. */
  ghost predicate HandFits(cfg: Config, s: State) {
    s.InFlight() ==>
      && s.popped != []
      && InHandBytes(s) <= cfg.maxSize
      && (InHandBytes(s) <= cfg.maxBatch || |s.popped[|s.popped| - 1].bufs| == 1)
  }

  lemma PopHandFits(cfg: Config, s: State, heap: Heap)
    requires QueueOk(s.list, s.size, cfg.maxSize, cfg.maxBatch) && Enabled(s, Pop, heap)
    ensures HandFits(cfg, Apply(cfg, s, Pop, heap))
  {
    SizesAt(s.list, cfg.maxBatch, 0);
    PackedAt(s.list, cfg.maxBatch, 0);
  }

  /** No other step changes the writes of the batch in hand. */
  lemma HandKept(cfg: Config, s: State, step: Step, heap: Heap)
    requires Enabled(s, step, heap) && !step.Pop?
    ensures var s' := Apply(cfg, s, step, heap);
            && (s'.InFlight() ==> s.InFlight()) && |s'.popped| == |s.popped|
            && (s.popped != [] ==> s'.popped[|s.popped| - 1].bufs == s.popped[|s.popped| - 1].bufs)
  {
  }

  lemma NextHandFits(cfg: Config, s: State, s': State)
    requires Next(cfg, s, s') && HandFits(cfg, s)
    requires QueueOk(s.list, s.size, cfg.maxSize, cfg.maxBatch)
    ensures HandFits(cfg, s')
  {
    var step, heap :| Stable(s, heap) && Enabled(s, step, heap) && s' == Apply(cfg, s, step, heap);
    if step.Pop? {
      PopHandFits(cfg, s, heap);
    } else {
      HandKept(cfg, s, step, heap);
    }
  }

  lemma ReachableQueueOk(cfg: Config, s: State)
    requires Reachable(cfg, s)
    ensures QueueOk(s.list, s.size, cfg.maxSize, cfg.maxBatch)
  {
    ReachableInv(cfg, s);
  }

  lemma {:induction false} RunHandFits(cfg: Config, run: seq<State>, i: nat)
    requires IsRun(cfg, run) && i < |run|
    ensures HandFits(cfg, run[i])
  {
    if i > 0 {
      RunHandFits(cfg, run, i - 1);
      PrefixReachable(cfg, run, i - 1);
      ReachableQueueOk(cfg, run[i - 1]);
      assert Next(cfg, run[i - 1], run[i - 1 + 1]);
      NextHandFits(cfg, run[i - 1], run[i]);
    }
  }

  lemma ReachableHandFits(cfg: Config, s: State)
    requires Reachable(cfg, s)
    ensures HandFits(cfg, s)
  {
    var run :| IsRun(cfg, run) && run[|run| - 1] == s;
    RunHandFits(cfg, run, |run| - 1);
  }

  /** The buffer never holds more than twice its limit, and not more than its limit plus a
      full batch unless the batch in hand is a single write. */
  lemma MemoryBound(cfg: Config, s: State)
    requires Reachable(cfg, s)
    ensures Held(s) == 0 || Held(s) <= 2 * cfg.maxSize
    ensures Held(s) == s.size || Held(s) <= cfg.maxSize + cfg.maxBatch || |s.popped[|s.popped| - 1].bufs| == 1
  {
    ReachableHandFits(cfg, s);
    ReachableQueueOk(cfg, s);
  }

  /** Twice the limit is reached by any buffer with room: one write of the full size is in
      hand when the next one is queued. */
  lemma HoldsTwice(cfg: Config) returns (s: State)
    requires cfg.buffered && cfg.maxSize >= 1
    ensures Reachable(cfg, s) && Held(s) == 2 * cfg.maxSize
  {
    var data: Bytes := seq(cfg.maxSize, _ => 0);
    var w0, w1, k := Write(0, 0, data), Write(1, 1, data), Key("", "");
    var heap: Heap := map[0 := data, 1 := data];
    TwoBegun(cfg, w0, k, w1, k, heap);
    s := WaitsForNextBatch(cfg, w0, k, w1, k, heap);
    LeadsReachable(cfg, heap, Begun(map[0 := Post(w0, k, Started, false), 1 := Post(w1, k, Started, false)]), s);
    BodyAppend([], w0);
    assert [] + [w0] == [w0];
  }

  /** Over all runs the limit bounds what is held exactly when the backend has no retry
      buffer with room for a byte. */
  lemma MemoryExact(cfg: Config)
    ensures (forall s :: Reachable(cfg, s) ==> Held(s) <= cfg.maxSize || Held(s) == 0)
            <==> !(cfg.buffered && cfg.maxSize >= 1)
  {
    if cfg.buffered && cfg.maxSize >= 1 {
      var s := HoldsTwice(cfg);
    } else {
      forall s | Reachable(cfg, s)
        ensures Held(s) <= cfg.maxSize || Held(s) == 0
      {
        SpaceAccounting(cfg, s);
        if cfg.buffered {
          WithoutRoom(cfg, s);
        } else {
          RetryOrder.UnbufferedAcceptsNothing(cfg, s);
        }
      }
    }
  }
}
