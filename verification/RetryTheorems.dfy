/** What holds in every reachable state of one backend, whatever the interleaving and
    whatever the backend answers. */
module RetryTheorems {
  import opened Basics
  import opened Sums
  import opened BatchList
  import opened RetryMachine
  import opened RetryInvariants

  // ---------------------------------------------------------------- order and conservation

  /** The bodies that settled, joined per key. */
  function KeyBytes(consumed: seq<Posted>, k: Key): Bytes {
    if consumed == [] then []
    else (if consumed[0].key == k then consumed[0].body else []) + KeyBytes(consumed[1..], k)
  }

  lemma {:induction false} ConsumedStream(consumed: seq<Posted>, batches: seq<Batch>, k: Key)
    requires |consumed| == |batches|
    requires forall i :: 0 <= i < |consumed| ==>
      consumed[i].key == batches[i].key && consumed[i].body == Body(batches[i].bufs)
    ensures KeyBytes(consumed, k) == Body(Stream(batches, k))
  {
    if consumed != [] {
      ConsumedStream(consumed[1..], batches[1..], k);
      BodyConcat(if batches[0].key == k then batches[0].bufs else [], Stream(batches[1..], k));
    }
  }

  /** The batches not settled yet: the one in hand, if any, and then the queue. */
  function Pending(s: State): seq<Batch> {
    if s.popped != [] && (s.run.Copying? || s.run.Sending?) then
      [s.popped[|s.popped| - 1]] + s.list
    else s.list
  }

  lemma PendingSplit(s: State)
    requires RunInv(s)
    ensures |s.consumed| <= |s.popped| && s.popped[..|s.consumed|] + Pending(s) == s.All()
  {
    var n := |s.consumed|;
    if s.run.Copying? || s.run.Sending? {
      assert s.popped == s.popped[..n] + [s.popped[n]];
    } else {
      assert s.popped == s.popped[..n];
    }
  }

  lemma PendingStream(s: State, k: Key)
    requires ConsumedInv(s) && |s.consumed| <= |s.popped|
    requires s.popped[..|s.consumed|] + Pending(s) == s.All()
    ensures KeyBytes(s.consumed, k) + Body(Stream(Pending(s), k)) == Body(Stream(s.All(), k))
  {
    var taken := s.popped[..|s.consumed|];
    ConsumedStream(s.consumed, taken, k);
    StreamConcat(taken, Pending(s), k);
    BodyConcat(Stream(taken, k), Stream(Pending(s), k));
  }

  /** For each key, what the backend took from the buffer, followed by what is in hand
      and queued, is what was accepted, in the order of acceptance: nothing is lost,
      repeated, reordered within a key, or moved to another key. */
  lemma StreamRefinement(cfg: Config, s: State, k: Key)
    requires Reachable(cfg, s)
    ensures KeyBytes(s.consumed, k) + Body(Stream(Pending(s), k)) == Body(KeyWrites(s.accepted, k))
  {
    ReachableInv(cfg, s);
    PendingSplit(s);
    PendingStream(s, k);
  }

  /** A later write gets ahead of an earlier one only across keys, and only by joining
      a batch that was opened before the earlier write was accepted. */
  lemma BoundedOvertaking(cfg: Config, s: State, a: nat, b: nat)
    requires Reachable(cfg, s)
    requires a < b < |s.accepted| && s.accepted[b].batch < s.accepted[a].batch
    ensures s.accepted[a].key != s.accepted[b].key
    ensures var i, j := s.accepted[a].batch, s.accepted[b].batch;
            && j < i < |s.openers|
            && s.openers[j] < s.openers[i] <= a
            && s.accepted[s.openers[j]].batch == j
            && s.accepted[s.openers[j]].key == s.accepted[b].key
  {
    ReachableInv(cfg, s);
    var j := s.accepted[b].batch;
    assert s.accepted[s.openers[j]].batch == j;
  }

  // ---------------------------------------------------------------- the queue

  /** For each key, exactly the last queued batch is open. */
  lemma OpenBatch(cfg: Config, s: State, i: nat)
    requires Reachable(cfg, s) && i < |s.list|
    ensures s.list[i].full <==> exists j :: i < j < |s.list| && s.list[j].key == s.list[i].key
  {
    ReachableInv(cfg, s);
    SealedIndex(s.list);
  }

  /** A batch outgrows `maxBatch` only as a single write, and k queued batches of one
      key hold more than floor(k / 2) * maxBatch bytes. */
  lemma NextFitPacking(cfg: Config, s: State, k: Key)
    requires Reachable(cfg, s)
    ensures forall i :: 0 <= i < |s.list| ==> s.list[i].size <= cfg.maxBatch || |s.list[i].bufs| == 1
    ensures var sizes := KeySizes(s.list, k);
            |sizes| >= 2 ==> Sum(sizes) > |sizes| / 2 * cfg.maxBatch
  {
    ReachableInv(cfg, s);
    PackingBound(s.list, k, cfg.maxBatch);
    forall i | 0 <= i < |s.list|
      ensures s.list[i].size <= cfg.maxBatch || |s.list[i].bufs| == 1
    {
      PackedAt(s.list, cfg.maxBatch, i);
    }
  }

  lemma {:induction false} PackedAt(list: seq<Batch>, maxBatch: int, i: nat)
    requires Packed(list, maxBatch) && i < |list|
    ensures WellFormed(list[i])
    ensures list[i].size <= maxBatch || |list[i].bufs| == 1
  {
    if i > 0 {
      PackedAt(list[1..], maxBatch, i - 1);
    }
  }

  /** Every write is non-empty and fits an empty buffer. */
  ghost predicate Sized(cfg: Config, s: State) {
    forall p :: p in s.posts ==> 1 <= |s.posts[p].write.data| <= cfg.maxSize
  }

  ghost predicate NonEmpty(s: State) {
    forall p :: p in s.posts ==> |s.posts[p].write.data| >= 1
  }

  lemma {:induction false} SizesAt(list: seq<Batch>, maxBatch: int, i: nat)
    requires Packed(list, maxBatch) && i < |list|
    ensures Sum(Sizes(list)) >= list[i].size
  {
    PackedSize(list[1..], maxBatch);
    if i > 0 {
      SizesAt(list[1..], maxBatch, i - 1);
    }
  }

  /** Every write has at least `m` bytes. */
  ghost predicate AtLeast(s: State, m: nat) {
    forall p :: p in s.posts ==> |s.posts[p].write.data| >= m
  }

  /** A queued batch holds a write of some post, so it is as large as that write. */
  lemma BatchAtLeast(cfg: Config, s: State, i: nat, m: nat)
    requires Inv(cfg, s) && AtLeast(s, m) && i < |s.list|
    ensures s.list[i].size >= m
  {
    var b := s.list[i];
    PackedAt(s.list, cfg.maxBatch, i);
    assert s.All()[|s.popped| + i] == b && b.bufs[0] in s.All()[|s.popped| + i].bufs;
    BodyConcat([b.bufs[0]], b.bufs[1..]);
    assert [b.bufs[0]] + b.bufs[1..] == b.bufs;
    BodyAppend([], b.bufs[0]);
    assert [] + [b.bufs[0]] == [b.bufs[0]];
  }

  lemma QueuedBytes(cfg: Config, s: State)
    requires Inv(cfg, s) && NonEmpty(s) && s.list != []
    ensures s.size > 0
  {
    BatchAtLeast(cfg, s, 0, 1);
    SizesAt(s.list, cfg.maxBatch, 0);
  }

  /** `size` is the number of queued bytes and stays within `maxSize`; `pop` never meets
      a nil head; the consumer sleeps only while no byte is queued. */
  lemma SpaceAccounting(cfg: Config, s: State)
    requires Reachable(cfg, s)
    ensures s.size == Sum(Sizes(s.list))
    ensures 0 <= s.size && (s.size <= cfg.maxSize || s.size == 0)
    ensures s.size > 0 ==> s.list != []
    ensures s.run.Asleep? ==> s.size == 0
    ensures NonEmpty(s) ==> (s.list == [] <==> s.size == 0)
  {
    ReachableInv(cfg, s);
    if NonEmpty(s) && s.list != [] {
      QueuedBytes(cfg, s);
    }
  }

  // ---------------------------------------------------------------- waiters

  /** An accepted post has exactly one batch, which is queued, in hand or released. It
      waits on that batch unless it was overtaken, and then on a later one. A released
      WaitGroup is at zero, never below, and its batch has an answer that is not 5xx. */
  lemma WaiterSafety(cfg: Config, s: State, p: nat)
    requires Reachable(cfg, s) && p in s.posts && Own(s.posts[p].pc).Some?
    ensures var post, own := s.posts[p], Own(s.posts[p].pc).value;
            && own < |s.All()| && post.write in s.All()[own].bufs && s.All()[own].key == post.key
            && (forall i :: 0 <= i < |s.All()| && post.write in s.All()[i].bufs ==> i == own)
            && s.All()[own].wg == (if own < s.Released() then 0 else 1)
            && (post.pc.Waiting? ==> own <= post.pc.on < |s.All()| && (post.pc.on == own <==> !post.overtaken))
            && (s.All()[own].wg == 0 ==> s.All()[own].resp.Some? && Class(s.All()[own].resp.value) != 5)
            && (post.pc.Returned? ==>
                  var on := post.pc.via.value.on;
                  && own <= on < |s.All()| && (on == own <==> !post.overtaken)
                  && s.All()[own].wg == s.All()[on].wg == 0
                  && s.All()[on].resp.Some? && post.pc.result == Got(s.All()[on].resp.value))
  {
    ReachableInv(cfg, s);
    assert PostOk(cfg, s, p);
    var own := Own(s.posts[p].pc).value;
    assert own < s.Released() ==> IsShown(s, own);
  }

  /** A released waiter always finds an answer, and not a 5xx, whichever batch it waited
      on. */
  lemma ReleaseAnswers(cfg: Config, s: State, heap: Heap, p: nat)
    requires Reachable(cfg, s) && Enabled(s, Release(p), heap)
    ensures var pc := s.posts[p].pc;
            && s.All()[pc.on].resp.Some? && Class(s.All()[pc.on].resp.value) != 5
            && Apply(cfg, s, Release(p), heap).posts[p].pc
               == Returned(Got(s.All()[pc.on].resp.value), Some(Wait(pc.on, pc.own)))
  {
    ReachablePost(cfg, s, p);
    ReachableRun(cfg, s);
    assert IsShown(s, s.posts[p].pc.on);
  }

  /** All waiters released by one WaitGroup, overtaken or not, get one and the same
      answer. */
  lemma SameAnswer(cfg: Config, s: State, p: nat, q: nat)
    requires Reachable(cfg, s) && p in s.posts && q in s.posts
    requires s.posts[p].pc.Returned? && s.posts[q].pc.Returned?
    requires s.posts[p].pc.via.Some? && s.posts[q].pc.via.Some?
    requires s.posts[p].pc.via.value.on == s.posts[q].pc.via.value.on
    ensures s.posts[p].pc.result.Got? && s.posts[p].pc.result == s.posts[q].pc.result
  {
    WaiterSafety(cfg, s, p);
    WaiterSafety(cfg, s, q);
  }

  /** Once stored, the answer of a batch never changes. */
  lemma AnswerIsFinal(cfg: Config, s: State, s': State, i: nat)
    requires Reachable(cfg, s) && Next(cfg, s, s')
    requires i < |s.All()| && s.All()[i].resp.Some?
    ensures i < |s'.All()| && s'.All()[i].resp == s.All()[i].resp
  {
    var step, heap :| Stable(s, heap) && Enabled(s, step, heap) && s' == Apply(cfg, s, step, heap);
    ReachableRun(cfg, s);
    StepExtends(cfg, s, step, heap);
  }

  /** The batch of the write has been popped from under the `head` field, to which `cur`
      points. */
  predicate PoppedFromUnder(s: State, p: nat)
    requires p in s.posts && s.posts[p].pc.Reading?
  {
    s.posts[p].pc.cell.AtHead? && s.posts[p].pc.own < |s.popped|
  }

  /** The late read of `*cur` finds the batch of the write exactly when that has not
      happened. Otherwise it finds whatever batch is first in the queue by then: nil
      exactly when nothing is. */
  lemma LateReadExact(cfg: Config, s: State, s': State, p: nat)
    requires Reachable(cfg, s) && Next(cfg, s, s')
    requires p in s.posts && s.posts[p].pc.Reading? && p in s'.posts && !s'.posts[p].pc.Reading?
    ensures var own, pc := s.posts[p].pc.own, s'.posts[p].pc;
            && own < |s.All()| && s.posts[p].write in s.All()[own].bufs
            && (pc == Waiting(own, own) <==> !PoppedFromUnder(s, p))
            && (pc == Crashed(own) <==> PoppedFromUnder(s, p) && s.list == [])
            && (pc.Waiting? && PoppedFromUnder(s, p) ==> pc == Waiting(|s.popped|, own))
            && (pc.Waiting? || pc.Crashed?)
            && (s'.posts[p].overtaken <==> PoppedFromUnder(s, p))
  {
    var step, heap :| Stable(s, heap) && Enabled(s, step, heap) && s' == Apply(cfg, s, step, heap);
    ReachablePost(cfg, s, p);
    if !TouchesPost(step, p) {
      OthersUntouched(cfg, s, step, heap, p);
    }
  }

  /** The only way to a nil pointer in `post` is the late read: the batch waited on is
      never without an answer, and a nil batch means that the own batch was popped. */
  lemma CrashOnlyIfOvertaken(cfg: Config, s: State, p: nat)
    requires Reachable(cfg, s) && p in s.posts
    ensures !s.posts[p].pc.NilResponse?
    ensures s.posts[p].pc.Crashed? ==>
      cfg.buffered && s.posts[p].overtaken && s.posts[p].pc.own < |s.popped|
  {
    ReachablePost(cfg, s, p);
  }

  // ---------------------------------------------------------------- delivery

  /** A settled batch: its POST is in the log and contained each of its writes. */
  lemma ConsumedDelivered(cfg: Config, s: State, i: nat, w: Write)
    requires Inv(cfg, s) && i < s.Released() && w in s.All()[i].bufs
    ensures s.All()[i].resp.Some?
    ensures Delivered(s.log, s.All()[i].key, w.data, s.All()[i].resp.value)
  {
    assert IsShown(s, i);
    assert s.All()[i] == s.popped[i];
    var e := s.consumed[i];
    BodyContains(s.popped[i].bufs, w);
    assert e in s.log;
  }

  /** An answer returned by `post`, unless it was overtaken, was given by the backend to
      a POST that carried the key of the write and contained all its bytes in one
      block. */
  lemma ReturnedMeansDelivered(cfg: Config, s: State, p: nat)
    requires Reachable(cfg, s) && p in s.posts
    requires s.posts[p].pc.Returned? && s.posts[p].pc.result.Got? && !s.posts[p].overtaken
    ensures Delivered(s.log, s.posts[p].key, s.posts[p].write.data, s.posts[p].pc.result.resp)
  {
    ReachableInv(cfg, s);
    assert PostOk(cfg, s, p);
    var post := s.posts[p];
    if post.pc.via.Some? {
      ConsumedDelivered(cfg, s, post.pc.via.value.own, post.write);
    }
  }

  /** Overtaken or not, some POST with all the bytes has been answered with something
      other than a 5xx by the time a buffered `post` returns an answer. */
  lemma ReturnedMeansTaken(cfg: Config, s: State, p: nat) returns (resp: Response)
    requires Reachable(cfg, s) && p in s.posts && cfg.buffered
    requires s.posts[p].pc.Returned? && s.posts[p].pc.result.Got?
    ensures Delivered(s.log, s.posts[p].key, s.posts[p].write.data, resp) && Class(resp) != 5
    ensures !s.posts[p].overtaken ==> resp == s.posts[p].pc.result.resp
  {
    ReachableInv(cfg, s);
    assert PostOk(cfg, s, p);
    var post := s.posts[p];
    resp := post.pc.result.resp;
    if post.pc.via.Some? {
      var own := post.pc.via.value.own;
      WaiterSafety(cfg, s, p);
      ConsumedDelivered(cfg, s, own, post.write);
      resp := s.All()[own].resp.value;
    }
  }

  /** A buffered backend shows its callers no 5xx and no transport error. */
  lemma BufferedHidesFailures(cfg: Config, s: State, p: nat)
    requires Reachable(cfg, s) && p in s.posts && cfg.buffered && s.posts[p].pc.Returned?
    ensures s.posts[p].pc.result.BufferFull? ||
            (s.posts[p].pc.result.Got? && Class(s.posts[p].pc.result.resp) != 5)
  {
    ReachablePost(cfg, s, p);
  }

  // ---------------------------------------------------------------- progress

  /** Whenever a batch is in hand, the next step of `run` can be taken; if that is a POST,
      then with any outcome. */
  lemma InHandMoves(cfg: Config, s: State, heap: Heap, o: Outcome) returns (step: Step)
    requires RunInv(s) && RefsInv(s.All(), s.posts) && PostsInv(cfg, s)
    requires Stable(s, heap) && s.InFlight()
    ensures RunStep(step) && Enabled(s, step, heap) && !step.Sleep? && (step.Attempt? ==> step.outcome == o)
  {
    match s.run
    case Copying(copied, body) =>
      if copied < |s.popped[|s.popped| - 1].bufs| {
        InHandUnfinished(cfg, s, copied);
        step := Copy;
      } else {
        step := EndCopy;
      }
    case Sending(_) => step := Attempt(o);
    case Settled(_) => step := Publish;
    case Published => step := ClearFlag;
    case Cleared => step := Done;
  }

  /** With non-empty writes the consumer always has a step to take while a post waits,
      whatever the outcome of the next POST. */
  lemma NoStuckWaiter(cfg: Config, s: State, heap: Heap, p: nat, o: Outcome) returns (step: Step)
    requires Reachable(cfg, s) && NonEmpty(s) && Stable(s, heap)
    requires p in s.posts && s.posts[p].pc.Waiting? && !Enabled(s, Release(p), heap)
    ensures RunStep(step) && Enabled(s, step, heap) && !step.Sleep? && (step.Attempt? ==> step.outcome == o)
  {
    ReachableInv(cfg, s);
    if s.InFlight() {
      step := InHandMoves(cfg, s, heap, o);
    } else {
      assert PostOk(cfg, s, p);
      WaiterMeansQueue(cfg, s, heap, p);
      QueuedBytes(cfg, s);
      step := Pop;
    }
  }

  lemma WaiterMeansQueue(cfg: Config, s: State, heap: Heap, p: nat)
    requires WaitGroupInv(s) && !s.InFlight()
    requires p in s.posts && PostOk(cfg, s, p) && s.posts[p].pc.Waiting? && !Enabled(s, Release(p), heap)
    ensures s.list != []
  {
    assert s.All()[s.posts[p].pc.on].wg == 1;
  }

  // ---------------------------------------------------------------- buffers without room

  /** A buffer without room for a byte never hands a batch to `run`; one without room for
      an empty write accepts nothing. */
  predicate Unused(cfg: Config, s: State) {
    (cfg.maxSize < 1 ==> s.popped == []) && (cfg.maxSize < 0 ==> s.All() == [])
  }

  lemma StepWithoutRoom(cfg: Config, s: State, step: Step, heap: Heap)
    requires Enabled(s, step, heap) && 0 <= s.size && (s.size <= cfg.maxSize || s.size == 0)
    requires Unused(cfg, s)
    ensures Unused(cfg, Apply(cfg, s, step, heap))
  {
  }

  lemma NextWithoutRoom(cfg: Config, s: State, s': State)
    requires Next(cfg, s, s') && 0 <= s.size && (s.size <= cfg.maxSize || s.size == 0)
    requires Unused(cfg, s)
    ensures Unused(cfg, s')
  {
    var step, heap :| Stable(s, heap) && Enabled(s, step, heap) && s' == Apply(cfg, s, step, heap);
    StepWithoutRoom(cfg, s, step, heap);
  }

  lemma {:induction false} RunWithoutRoom(cfg: Config, run: seq<State>, i: nat)
    requires IsRun(cfg, run) && i < |run|
    ensures Unused(cfg, run[i])
  {
    if i > 0 {
      RunWithoutRoom(cfg, run, i - 1);
      PrefixReachable(cfg, run, i - 1);
      SpaceAccounting(cfg, run[i - 1]);
      assert Next(cfg, run[i - 1], run[i - 1 + 1]);
      NextWithoutRoom(cfg, run[i - 1], run[i]);
    }
  }

  lemma WithoutRoom(cfg: Config, s: State)
    requires Reachable(cfg, s)
    ensures Unused(cfg, s)
  {
    var run :| IsRun(cfg, run) && run[|run| - 1] == s;
    RunWithoutRoom(cfg, run, |run| - 1);
  }

  // ---------------------------------------------------------------- the buffering flag

  /** Somebody will get to clearing the flag: bytes are queued, or a batch is in hand
      whose success clears it, or a post that stored it is about to add its write. */
  ghost predicate FlagHasWork(s: State) {
    s.buffering ==>
      || s.size > 0
      || (s.InFlight() && !s.run.Cleared?)
      || exists p :: p in s.posts && s.posts[p].pc == Adding(true)
  }

  lemma KeepsFlag(cfg: Config, s: State, step: Step, heap: Heap)
    requires s.size >= 0 && Enabled(s, step, heap) && FlagHasWork(s)
    requires Sized(cfg, Apply(cfg, s, step, heap))
    ensures FlagHasWork(Apply(cfg, s, step, heap))
  {
    var s' := Apply(cfg, s, step, heap);
    if s'.buffering {
      if step.Store? {
        assert s'.posts[step.p].pc == Adding(true);
      } else if p :| p in s.posts && s.posts[p].pc == Adding(true) {
        assert s'.posts[p].write == s.posts[p].write;
        if step != Add(p) {
          assert s'.posts[p].pc == Adding(true);
        }
      } else if step.Add? {
        assert s'.size >= s.size;
      }
    }
  }

  lemma SizedBefore(cfg: Config, s: State, step: Step, heap: Heap)
    requires Enabled(s, step, heap) && Sized(cfg, Apply(cfg, s, step, heap))
    ensures Sized(cfg, s)
  {
    var s' := Apply(cfg, s, step, heap);
    PostsKept(cfg, s, step, heap);
    forall p | p in s.posts
      ensures 1 <= |s.posts[p].write.data| <= cfg.maxSize
    {
      assert p in s'.posts && s'.posts[p].write == s.posts[p].write;
    }
  }

  lemma {:induction false} RunKeepsFlag(cfg: Config, run: seq<State>, i: nat)
    requires IsRun(cfg, run) && i < |run| && Sized(cfg, run[i])
    ensures FlagHasWork(run[i])
  {
    if i > 0 {
      assert Next(cfg, run[i - 1], run[i - 1 + 1]);
      var step, heap :|
        Stable(run[i - 1], heap) && Enabled(run[i - 1], step, heap) && run[i] == Apply(cfg, run[i - 1], step, heap);
      SizedBefore(cfg, run[i - 1], step, heap);
      RunKeepsFlag(cfg, run, i - 1);
      PrefixReachable(cfg, run, i - 1);
      SpaceAccounting(cfg, run[i - 1]);
      KeepsFlag(cfg, run[i - 1], step, heap);
    }
  }

  lemma RunPosts(cfg: Config, run: seq<State>, i: nat)
    requires IsRun(cfg, run) && i < |run|
    ensures PostsInv(cfg, run[i])
  {
    RunKeepsInv(cfg, run, i);
  }

  /** Without a retry buffer the flag is never set. */
  lemma {:induction false} RunKeepsClear(cfg: Config, run: seq<State>, i: nat)
    requires IsRun(cfg, run) && i < |run| && !cfg.buffered
    ensures !run[i].buffering
  {
    if i > 0 {
      RunKeepsClear(cfg, run, i - 1);
      RunPosts(cfg, run, i - 1);
      assert Next(cfg, run[i - 1], run[i - 1 + 1]);
    }
  }

  lemma UnbufferedFlag(cfg: Config, s: State)
    requires Reachable(cfg, s) && !cfg.buffered
    ensures !s.buffering
  {
    var run :| IsRun(cfg, run) && run[|run| - 1] == s;
    RunKeepsClear(cfg, run, |run| - 1);
  }

  /** The flag never sticks while every write is non-empty and fits the buffer. */
  lemma FlagNeverSticks(cfg: Config, s: State)
    requires Reachable(cfg, s) && Sized(cfg, s)
    ensures FlagHasWork(s)
  {
    var run :| IsRun(cfg, run) && run[|run| - 1] == s;
    RunKeepsFlag(cfg, run, |run| - 1);
  }

  // ---------------------------------------------------------------- buffering mode

  lemma NextKeepsDirect(cfg: Config, s: State, s': State, p: nat)
    requires cfg.buffered && Next(cfg, s, s') && s.buffering
    requires p in s'.posts && s'.posts[p].pc.Posting?
    ensures p in s.posts && s.posts[p].pc.Posting?
  {
    var step, heap :| Stable(s, heap) && Enabled(s, step, heap) && s' == Apply(cfg, s, step, heap);
    if p in s.posts && !TouchesPost(step, p) {
      OthersUntouched(cfg, s, step, heap, p);
    }
  }

  /** As long as the flag stays set, nothing new is POSTed around the buffer: the only
      direct POSTs still to come are those already under way when the stretch began. */
  lemma {:induction false} NoNewDirectPosts(cfg: Config, run: seq<State>, i: nat, j: nat, p: nat)
    requires cfg.buffered && IsRun(cfg, run) && i <= j < |run|
    requires forall m :: i <= m < j ==> run[m].buffering
    requires p in run[j].posts && run[j].posts[p].pc.Posting?
    ensures p in run[i].posts && run[i].posts[p].pc.Posting?
  {
    if i < j {
      assert Next(cfg, run[j - 1], run[j - 1 + 1]);
      NextKeepsDirect(cfg, run[j - 1], run[j], p);
      NoNewDirectPosts(cfg, run, i, j - 1, p);
    }
  }

  /** The flag is set by every failed direct POST before its write is added, and cleared
      only after a batch has settled and its answer is stored. */
  lemma FlagFollowsBackend(cfg: Config, s: State, s': State)
    requires Reachable(cfg, s) && Next(cfg, s, s')
    ensures s.buffering && !s'.buffering ==>
      && s.consumed != [] && Settles(s.consumed[|s.consumed| - 1].outcome)
      && s.popped != [] && s.popped[|s.popped| - 1].resp == Some(s.consumed[|s.consumed| - 1].outcome.resp)
    ensures forall p :: p in s.posts && p in s'.posts && s.posts[p].pc.Refused? && !s'.posts[p].pc.Refused? ==>
      s'.buffering && s'.posts[p].pc == Adding(true)
  {
    var step, heap :| Stable(s, heap) && Enabled(s, step, heap) && s' == Apply(cfg, s, step, heap);
    if s.buffering && !s'.buffering {
      ReachableRun(cfg, s);
      ClearedAfterSettling(s);
    }
    forall p | p in s.posts && p in s'.posts && s.posts[p].pc.Refused? && !s'.posts[p].pc.Refused?
      ensures s'.buffering && s'.posts[p].pc == Adding(true)
    {
      RefusedStores(cfg, s, step, heap, p);
    }
  }

  lemma RefusedStores(cfg: Config, s: State, step: Step, heap: Heap, p: nat)
    requires Enabled(s, step, heap) && p in s.posts && s.posts[p].pc.Refused?
    ensures var s' := Apply(cfg, s, step, heap);
            p in s'.posts && (s'.posts[p].pc.Refused? || (s'.buffering && s'.posts[p].pc == Adding(true)))
  {
    if !TouchesPost(step, p) {
      OthersUntouched(cfg, s, step, heap, p);
    }
  }

  lemma ReachableRun(cfg: Config, s: State)
    requires Reachable(cfg, s)
    ensures RunInv(s)
  {
    ReachableInv(cfg, s);
  }

  lemma ClearedAfterSettling(s: State)
    requires RunInv(s) && s.run.Published?
    ensures s.popped != [] && s.consumed != [] && Settles(s.consumed[|s.consumed| - 1].outcome)
    ensures s.popped[|s.popped| - 1].resp == Some(s.consumed[|s.consumed| - 1].outcome.resp)
  {
    assert IsShown(s, |s.popped| - 1);
    assert s.All()[|s.popped| - 1] == s.popped[|s.popped| - 1];
  }
}
