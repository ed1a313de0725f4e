/** What the buffer is for: once the backend takes data again, everything that was accepted
    gets there, and the relay goes back to POSTing directly. */
module RetryRecovery {
  import opened Basics
  import opened BatchList
  import opened RetryMachine
  import opened RetryInvariants
  import opened RetryTheorems
  import opened RetryTraces

  /** The steps `run` needs for the queued batches, if every POST settles. */
  function QueueWork(list: seq<Batch>): nat {
    if list == [] then 0 else |list[0].bufs| + 6 + QueueWork(list[1..])
  }

  /** The steps it needs for what is in hand. */
  function HandWork(s: State): nat {
    match s.run
    case Asleep => 0
    case Idle => 1
    case Cleared => 2
    case Published => 3
    case Settled(_) => 4
    case Sending(_) => 5
    case Copying(copied, _) =>
      if s.popped != [] && copied <= |s.popped[|s.popped| - 1].bufs|
      then |s.popped[|s.popped| - 1].bufs| - copied + 6 else 0
  }

  function Work(s: State): nat {
    QueueWork(s.list) + HandWork(s)
  }

  lemma PostStepWorks(cfg: Config, s: State, step: Step, heap: Heap)
    requires Enabled(s, step, heap) && !RunStep(step) && !Accepts(cfg, s, step)
    ensures Work(Apply(cfg, s, step, heap)) == Work(s)
  {
  }

  /** From `i` on the backend takes every batch it is POSTed, and no write is added. */
  ghost predicate Recovering(cfg: Config, run: seq<State>, acts: seq<Act>, i: nat)
    requires |run| == |acts| + 1
  {
    forall m :: i <= m < |acts| ==>
      && !Accepts(cfg, run[m], acts[m].step)
      && (acts[m].step.Attempt? ==> Settles(acts[m].step.outcome))
  }

  function CountRunSteps(acts: seq<Act>): nat {
    if acts == [] then 0
    else
      var last := acts[|acts| - 1];
      CountRunSteps(acts[..|acts| - 1]) + if RunStep(last.step) then 1 else 0
  }

  lemma ActWorks(cfg: Config, s: State, act: Act, s': State)
    requires Takes(cfg, s, act, s') && !Accepts(cfg, s, act.step)
    requires act.step.Attempt? ==> Settles(act.step.outcome)
    ensures Work(s') + (if RunStep(act.step) then 1 else 0) <= Work(s)
  {
    if !RunStep(act.step) {
      PostStepWorks(cfg, s, act.step, act.heap);
    }
  }

  /** What every step of `run` lowers, and no other raises, bounds their number. */
  lemma {:induction false} Descends(acts: seq<Act>, works: seq<int>)
    requires |works| == |acts| + 1
    requires forall m :: 0 <= m < |acts| ==> works[m + 1] + (if RunStep(acts[m].step) then 1 else 0) <= works[m]
    ensures CountRunSteps(acts) + works[|acts|] <= works[0]
  {
    if acts != [] {
      var n := |acts| - 1;
      Descends(acts[..n], works[..n + 1]);
      assert works[n + 1] + (if RunStep(acts[n].step) then 1 else 0) <= works[n];
    }
  }

  /** Meanwhile `run` takes no more steps than there is work. */
  lemma WorkBounds(cfg: Config, run: seq<State>, acts: seq<Act>, i: nat)
    requires IsTrace(cfg, run, acts) && i <= |acts| && Recovering(cfg, run, acts, i)
    ensures CountRunSteps(acts[i..]) + Work(run[|acts|]) <= Work(run[i])
  {
    var n := |acts| - i;
    var works := seq(n + 1, m requires 0 <= m <= n => Work(run[i + m]));
    forall m | 0 <= m < n
      ensures works[m + 1] + (if RunStep(acts[i..][m].step) then 1 else 0) <= works[m]
    {
      assert Takes(cfg, run[i + m], acts[i + m], run[i + m + 1]);
      ActWorks(cfg, run[i + m], acts[i + m], run[i + m + 1]);
    }
    Descends(acts[i..], works);
  }

  /** Nothing is left for `run` to do. */
  ghost predicate AtRest(s: State, heap: Heap) {
    forall step :: RunStep(step) ==> !Enabled(s, step, heap)
  }

  lemma RestsAsleep(cfg: Config, s: State, heap: Heap)
    requires Reachable(cfg, s) && NonEmpty(s) && Stable(s, heap) && AtRest(s, heap)
    ensures s.run.Asleep? && s.list == [] && s.size == 0
  {
    SpaceAccounting(cfg, s);
    assert !Enabled(s, Sleep, heap) && !Enabled(s, Pop, heap);
    if s.InFlight() {
      ReachableInv(cfg, s);
      var step := InHandMoves(cfg, s, heap, Failed);
    }
  }

  /** At rest everything accepted has been taken by the backend, per key in the order of
      acceptance, and every waiter can be released. */
  lemma RestMeansDelivered(cfg: Config, s: State, heap: Heap)
    requires Reachable(cfg, s) && NonEmpty(s) && Stable(s, heap) && AtRest(s, heap)
    ensures s.list == [] && !s.InFlight()
    ensures forall k :: KeyBytes(s.consumed, k) == Body(KeyWrites(s.accepted, k))
    ensures forall p :: p in s.posts && s.posts[p].pc.Waiting? ==> Enabled(s, Release(p), heap)
  {
    RestsAsleep(cfg, s, heap);
    forall k
      ensures KeyBytes(s.consumed, k) == Body(KeyWrites(s.accepted, k))
    {
      StreamRefinement(cfg, s, k);
      assert Stream(Pending(s), k) == [];
    }
    forall p | p in s.posts && s.posts[p].pc.Waiting?
      ensures Enabled(s, Release(p), heap)
    {
      if !Enabled(s, Release(p), heap) {
        var step := NoStuckWaiter(cfg, s, heap, p, Failed);
      }
    }
  }

  /** And new writes go to the backend directly again, unless some post that just failed
      there is about to add its own. */
  lemma RestMeansDirect(cfg: Config, s: State, heap: Heap)
    requires Reachable(cfg, s) && Sized(cfg, s) && Stable(s, heap) && AtRest(s, heap)
    ensures s.buffering ==> exists p :: p in s.posts && s.posts[p].pc == Adding(true)
  {
    RestsAsleep(cfg, s, heap);
    FlagNeverSticks(cfg, s);
  }

  lemma NoWorkRests(s: State, heap: Heap)
    requires RunInv(s) && Work(s) == 0
    ensures AtRest(s, heap)
  {
    assert s.run.Asleep?;
  }

  /** A backend that recovers gets all of it: from any moment of any run, as long as it
      takes what it is POSTed and no write is added, `run` comes to rest after at most
      `Work` of its steps, however the posts' steps are interleaved, and it rests only
      when everything accepted has been taken. */
  lemma RecoveryDelivers(cfg: Config, run: seq<State>, acts: seq<Act>, i: nat, heap: Heap)
    requires IsTrace(cfg, run, acts) && i <= |acts| && Recovering(cfg, run, acts, i)
    requires NonEmpty(run[|acts|]) && Stable(run[|acts|], heap)
    ensures CountRunSteps(acts[i..]) <= Work(run[i])
    ensures CountRunSteps(acts[i..]) == Work(run[i]) ==> AtRest(run[|acts|], heap)
    ensures AtRest(run[|acts|], heap) ==>
      && run[|acts|].list == [] && !run[|acts|].InFlight()
      && forall k :: KeyBytes(run[|acts|].consumed, k) == Body(KeyWrites(run[|acts|].accepted, k))
  {
    var s := run[|acts|];
    WorkBounds(cfg, run, acts, i);
    TraceIsRun(cfg, run, acts);
    assert Reachable(cfg, s);
    ReachableRun(cfg, s);
    if Work(s) == 0 {
      NoWorkRests(s, heap);
    }
    if AtRest(s, heap) {
      RestMeansDelivered(cfg, s, heap);
    }
  }
}
