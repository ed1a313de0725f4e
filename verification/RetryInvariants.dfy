/** What every step of the retry buffer keeps. */
module RetryInvariants {
  import opened Basics
  import opened BatchList
  import opened RetryMachine

  /** The batch that holds the write of a post, once it is accepted. */
  function Own(pc: PostPc): Option<nat> {
    match pc
    case Reading(_, own) => Some(own)
    case Waiting(_, own) => Some(own)
    case Crashed(own) => Some(own)
    case NilResponse(own) => Some(own)
    case Returned(_, via) => if via.Some? then Some(via.value.own) else None
    case _ => None
  }

  /** The accepted writes of one key, in acceptance order. */
  function KeyWrites(accepted: seq<Entry>, k: Key): seq<Write> {
    if accepted == [] then []
    else
      var last := accepted[|accepted| - 1];
      KeyWrites(accepted[..|accepted| - 1], k) + (if last.key == k then [last.write] else [])
  }

  /** Some POST in the log of this key contained the data and was answered `resp`. */
  ghost predicate Delivered(log: seq<Posted>, k: Key, data: Bytes, resp: Response) {
    exists e :: e in log && e.key == k && e.outcome == Answered(resp) && Contains(e.body, data)
  }

  // ---------------------------------------------------------------- the invariant

  ghost predicate StreamInv(s: State) {
    forall k :: Stream(s.All(), k) == KeyWrites(s.accepted, k)
  }

  ghost predicate OrderInv(all: seq<Batch>, accepted: seq<Entry>, openers: seq<nat>) {
    && |openers| == |all|
    && (forall i, j :: 0 <= i < j < |openers| ==> openers[i] < openers[j])
    && (forall i :: 0 <= i < |openers| ==>
          && openers[i] < |accepted|
          && accepted[openers[i]].batch == i
          && all[i].bufs != [] && all[i].bufs[0] == accepted[openers[i]].write)
    && (forall a :: 0 <= a < |accepted| ==>
          && accepted[a].batch < |all|
          && openers[accepted[a].batch] <= a
          && all[accepted[a].batch].key == accepted[a].key
          && accepted[a].write in all[accepted[a].batch].bufs)
    && (forall a, b :: 0 <= a < b < |accepted| && accepted[a].key == accepted[b].key ==>
          accepted[a].batch <= accepted[b].batch)
  }

  ghost predicate AcceptedInv(accepted: seq<Entry>, posts: map<nat, Post>) {
    && (forall a :: 0 <= a < |accepted| ==>
          accepted[a].write.req in posts
          && Own(posts[accepted[a].write.req].pc) == Some(accepted[a].batch))
    && (forall a, b :: 0 <= a < b < |accepted| ==> accepted[a].write.req != accepted[b].write.req)
  }

  /** Every write in a batch belongs to the one post whose own batch that is. */
  ghost predicate RefsInv(all: seq<Batch>, posts: map<nat, Post>) {
    forall i, w :: 0 <= i < |all| && w in all[i].bufs ==>
      && w.req in posts && posts[w.req].write == w && posts[w.req].key == all[i].key
      && Own(posts[w.req].pc) == Some(i)
  }

  predicate HasAnswer(run: RunPc) {
    run.Settled? || run.Published? || run.Cleared?
  }

  predicate IsShown(s: State, i: int) {
    i < s.Released() || (i == s.Released() && (s.run.Published? || s.run.Cleared?))
  }

  ghost predicate ConsumedInv(s: State) {
    && |s.consumed| == s.Released() + (if HasAnswer(s.run) then 1 else 0)
    && forall i :: 0 <= i < |s.consumed| ==>
         && s.consumed[i].key == s.popped[i].key
         && s.consumed[i].body == Body(s.popped[i].bufs)
         && Settles(s.consumed[i].outcome)
         && s.consumed[i] in s.log
  }

  ghost predicate WaitGroupInv(s: State) {
    forall i :: 0 <= i < |s.All()| ==> s.All()[i].wg == if i < s.Released() then 0 else 1
  }

  ghost predicate ResponseInv(s: State)
    requires ConsumedInv(s)
  {
    forall i :: 0 <= i < |s.All()| ==>
      s.All()[i].resp == if IsShown(s, i) then Some(s.consumed[i].outcome.resp) else None
  }

  ghost predicate BodyInv(s: State)
    requires ConsumedInv(s)
  {
    && (s.InFlight() ==> s.popped != [])
    && match s.run
       case Asleep => s.size == 0
       case Copying(copied, body) =>
         var bufs := s.popped[|s.popped| - 1].bufs;
         copied <= |bufs| && body == Body(bufs[..copied])
       case Sending(body) => body == Body(s.popped[|s.popped| - 1].bufs)
       case Settled(resp) => s.consumed[|s.popped| - 1].outcome == Answered(resp)
       case _ => true
  }

  ghost predicate RunInv(s: State) {
    ConsumedInv(s) && WaitGroupInv(s) && ResponseInv(s) && BodyInv(s)
  }

  predicate Holds(all: seq<Batch>, own: nat, post: Post) {
    own < |all| && post.write in all[own].bufs && all[own].key == post.key
  }

  ghost predicate PostOk(cfg: Config, s: State, p: nat)
    requires p in s.posts
  {
    var post := s.posts[p];
    && post.write.req == p
    && (Own(post.pc).Some? || post.pc.Refused? || post.pc.Adding? ==> cfg.buffered)
    && (post.overtaken ==> Own(post.pc).Some? && Own(post.pc).value < |s.popped|)
    && match post.pc
       case Reading(cell, own) =>
         && Holds(s.All(), own, post) && !post.overtaken
         && (match cell
             case AtHead => own <= |s.popped|
             case After(prev) => own == prev + 1 && prev in s.linked)
       case Waiting(on, own) =>
         && Holds(s.All(), own, post)
         && own <= on < |s.All()|
         && (on == own <==> !post.overtaken)
       case Crashed(own) => Holds(s.All(), own, post) && post.overtaken
       case Returned(Got(resp), None) =>
         && Delivered(s.log, post.key, post.write.data, resp)
         && (cfg.buffered ==> Class(resp) != 5)
       case Returned(Got(resp), Some(Wait(on, own))) =>
         && Holds(s.All(), own, post)
         && own <= on < s.Released()
         && (on == own <==> !post.overtaken)
         && s.All()[on].resp == Some(resp) && Class(resp) != 5
       case Returned(PostFailed, via) => !cfg.buffered && via == None
       case Returned(BufferFull, via) => cfg.buffered && via == None
       case NilResponse(_) => false
       case _ => true
  }

  ghost predicate PostsInv(cfg: Config, s: State) {
    forall p :: p in s.posts ==> PostOk(cfg, s, p)
  }

  /** Queued batches are linked to their successors, and no link leads outside. */
  ghost predicate LinkedInv(s: State) {
    && (forall q :: q in s.linked ==> q + 1 < |s.All()|)
    && (forall q :: |s.popped| <= q && q + 1 < |s.All()| ==> q in s.linked)
  }

  ghost predicate Inv(cfg: Config, s: State) {
    && QueueOk(s.list, s.size, cfg.maxSize, cfg.maxBatch)
    && StreamInv(s)
    && OrderInv(s.All(), s.accepted, s.openers)
    && AcceptedInv(s.accepted, s.posts)
    && RefsInv(s.All(), s.posts)
    && RunInv(s)
    && LinkedInv(s)
    && PostsInv(cfg, s)
  }

  // ---------------------------------------------------------------- how states grow

  /** What a step may do to the facts the posts rely on: everything only grows. */
  ghost predicate Extends(s: State, s': State) {
    && |s.popped| <= |s'.popped|
    && s.Released() <= s'.Released()
    && |s.All()| <= |s'.All()|
    && (forall i :: 0 <= i < |s.All()| ==>
          && s'.All()[i].key == s.All()[i].key
          && s.All()[i].bufs <= s'.All()[i].bufs
          && (s.All()[i].resp.Some? ==> s'.All()[i].resp == s.All()[i].resp))
    && s.linked <= s'.linked
    && s.log <= s'.log
  }

  lemma PostOkMono(cfg: Config, s: State, s': State, p: nat)
    requires p in s.posts && p in s'.posts && s'.posts[p] == s.posts[p]
    requires PostOk(cfg, s, p) && Extends(s, s') && |s.popped| >= s.Released()
    ensures PostOk(cfg, s', p)
  {
  }

  /** Steps that touch one post only. */
  predicate TouchesPost(step: Step, p: nat) {
    match step
    case Begin(q, _, _) => p == q
    case Load(q) => p == q
    case DirectPost(q, _) => p == q
    case Store(q) => p == q
    case Add(q) => p == q
    case ReadBack(q) => p == q
    case Release(q) => p == q
    case _ => false
  }

  lemma OthersUntouched(cfg: Config, s: State, step: Step, heap: Heap, p: nat)
    requires Enabled(s, step, heap) && p in s.posts && !TouchesPost(step, p)
    ensures var s' := Apply(cfg, s, step, heap); p in s'.posts && s'.posts[p] == s.posts[p]
  {
  }

  lemma AllAfterAdd(cfg: Config, s: State, p: nat)
    requires p in s.posts && s.size + |s.posts[p].write.data| <= cfg.maxSize
    ensures var s', post := AddTo(cfg, s, p), s.posts[p];
            var at := Slot(s.list, post.write, post.key, cfg.maxBatch);
            var own := |s.popped| + at;
            && at <= |s.list| && own < |s'.All()|
            && s'.All()[own].key == post.key && s'.All()[own].wg == (if at == |s.list| then 1 else s.list[at].wg)
            && (at < |s.list| ==> s'.All()[own] == Join(s.All()[own], post.write))
            && (at == |s.list| ==> s'.All()[own] == NewBatch(post.write, post.key))
            && |s'.All()| == (if at == |s.list| then |s.All()| + 1 else |s.All()|)
            && (forall i :: 0 <= i < |s.All()| && i != own ==>
                  s'.All()[i] == s.All()[i].(full := s'.All()[i].full))
            && s'.popped == s.popped
  {
    var post := s.posts[p];
    InsertShape(s.list, post.write, post.key, cfg.maxBatch);
  }

  /** Publishing and releasing change the batch in hand and nothing else of `All`. */
  lemma InHandUpdate(s: State, s': State, b: Batch)
    requires s.popped != [] && s'.list == s.list
    requires s'.popped == s.popped[|s.popped| - 1 := b]
    ensures s'.All() == s.All()[|s.popped| - 1 := b]
  {
  }

  lemma AddExtends(cfg: Config, s: State, p: nat)
    requires p in s.posts
    ensures Extends(s, AddTo(cfg, s, p))
  {
    if s.size + |s.posts[p].write.data| <= cfg.maxSize {
      AllAfterAdd(cfg, s, p);
    }
  }

  lemma PopExtends(cfg: Config, s: State, heap: Heap)
    requires Enabled(s, Pop, heap)
    ensures Extends(s, Apply(cfg, s, Pop, heap))
  {
  }

  lemma OtherExtends(cfg: Config, s: State, step: Step, heap: Heap)
    requires Enabled(s, step, heap) && !step.Add? && !step.Pop? && !step.Publish? && !step.Done?
    ensures Extends(s, Apply(cfg, s, step, heap))
  {
    var s' := Apply(cfg, s, step, heap);
    assert s'.popped == s.popped && s'.list == s.list && s'.linked == s.linked;
    assert s'.InFlight() == s.InFlight() && s.log <= s'.log;
  }

  lemma PublishExtends(cfg: Config, s: State, heap: Heap)
    requires RunInv(s) && Enabled(s, Publish, heap)
    ensures Extends(s, Apply(cfg, s, Publish, heap))
  {
    var s', last := Apply(cfg, s, Publish, heap), |s.popped| - 1;
    InHandUpdate(s, s', s'.popped[last]);
    assert !IsShown(s, last);
    assert s.All()[last].resp == None;
  }

  lemma StepExtends(cfg: Config, s: State, step: Step, heap: Heap)
    requires RunInv(s) && Enabled(s, step, heap)
    ensures Extends(s, Apply(cfg, s, step, heap))
  {
    if step.Add? {
      AddExtends(cfg, s, step.p);
    } else if step.Pop? {
      PopExtends(cfg, s, heap);
    } else if step.Publish? {
      PublishExtends(cfg, s, heap);
    } else if !step.Done? {
      OtherExtends(cfg, s, step, heap);
    }
  }

  // ---------------------------------------------------------------- the queue

  lemma KeepsQueue(cfg: Config, s: State, step: Step, heap: Heap)
    requires QueueOk(s.list, s.size, cfg.maxSize, cfg.maxBatch) && Enabled(s, step, heap)
    ensures var s' := Apply(cfg, s, step, heap); QueueOk(s'.list, s'.size, cfg.maxSize, cfg.maxBatch)
  {
    match step
    case Add(p) =>
      var post := s.posts[p];
      if s.size + |post.write.data| <= cfg.maxSize {
        InsertQueueOk(s.list, s.size, cfg.maxSize, cfg.maxBatch, post.write, post.key);
      }
    case Pop =>
      DropQueueOk(s.list, s.size, cfg.maxSize, cfg.maxBatch);
    case _ =>
  }

  lemma AddKeepsStream(cfg: Config, s: State, p: nat, k: Key)
    requires Sealed(s.list) && p in s.posts
    requires s.size + |s.posts[p].write.data| <= cfg.maxSize
    requires Stream(s.All(), k) == KeyWrites(s.accepted, k)
    ensures var s' := AddTo(cfg, s, p); Stream(s'.All(), k) == KeyWrites(s'.accepted, k)
  {
    var s', post := AddTo(cfg, s, p), s.posts[p];
    InsertStream(s.list, post.write, post.key, cfg.maxBatch, k);
    StreamConcat(s.popped, s.list, k);
    StreamConcat(s'.popped, s'.list, k);
    assert s'.accepted[..|s'.accepted| - 1] == s.accepted;
  }

  /** The new entry joins a batch at or after every batch of its key. */
  lemma AddJoinsLast(cfg: Config, s: State, p: nat)
    requires Sealed(s.list) && OrderInv(s.All(), s.accepted, s.openers)
    requires p in s.posts
    ensures var own := |s.popped| + Slot(s.list, s.posts[p].write, s.posts[p].key, cfg.maxBatch);
            forall a :: 0 <= a < |s.accepted| && s.accepted[a].key == s.posts[p].key ==>
              s.accepted[a].batch <= own
  {
    var post := s.posts[p];
    forall a | 0 <= a < |s.accepted| && s.accepted[a].key == post.key
      ensures s.accepted[a].batch <= |s.popped| + Slot(s.list, post.write, post.key, cfg.maxBatch)
    {
      var b := s.accepted[a].batch;
      if b >= |s.popped| {
        assert s.All()[b] == s.list[b - |s.popped|];
        SlotIsLast(s.list, post.write, post.key, cfg.maxBatch, b - |s.popped|);
      }
    }
  }

  /** The new entry, and what it does to the batches and openers. */
  lemma AddShape(cfg: Config, s: State, p: nat)
    requires p in s.posts && s.size + |s.posts[p].write.data| <= cfg.maxSize
    ensures var s', post := AddTo(cfg, s, p), s.posts[p];
            var own := |s.popped| + Slot(s.list, post.write, post.key, cfg.maxBatch);
            && s'.accepted == s.accepted + [Entry(post.write, post.key, own)]
            && own < |s'.All()| && s'.All()[own].key == post.key
            && |s'.All()| == (if own == |s.All()| then |s.All()| + 1 else |s.All()|)
            && s'.openers == (if own == |s.All()| then s.openers + [|s.accepted|] else s.openers)
            && (own == |s.All()| ==> s'.All()[own].bufs == [post.write])
            && (own < |s.All()| ==> s'.All()[own].bufs == s.All()[own].bufs + [post.write])
            && (forall i :: 0 <= i < |s.All()| ==>
                  s'.All()[i].key == s.All()[i].key && s.All()[i].bufs <= s'.All()[i].bufs)
  {
    AllAfterAdd(cfg, s, p);
  }

  lemma AddKeepsOrder(cfg: Config, s: State, p: nat)
    requires Sealed(s.list) && OrderInv(s.All(), s.accepted, s.openers)
    requires p in s.posts && s.size + |s.posts[p].write.data| <= cfg.maxSize
    ensures var s' := AddTo(cfg, s, p); OrderInv(s'.All(), s'.accepted, s'.openers)
  {
    AddShape(cfg, s, p);
    AddJoinsLast(cfg, s, p);
    var s' := AddTo(cfg, s, p);
    OrderAppend(s.All(), s.accepted, s.openers, s'.All(), s'.accepted[|s.accepted|], s'.openers);
  }

  /** The same on values: one entry joins an existing batch or opens a new one. */
  lemma OrderAppend(all: seq<Batch>, accepted: seq<Entry>, openers: seq<nat>,
                    all': seq<Batch>, e: Entry, openers': seq<nat>)
    requires OrderInv(all, accepted, openers)
    requires e.batch < |all'| && all'[e.batch].key == e.key
    requires |all'| == (if e.batch == |all| then |all| + 1 else |all|)
    requires e.batch == |all| ==> all'[e.batch].bufs == [e.write] && openers' == openers + [|accepted|]
    requires e.batch < |all| ==> all'[e.batch].bufs == all[e.batch].bufs + [e.write] && openers' == openers
    requires forall i :: 0 <= i < |all| ==> all'[i].key == all[i].key && all[i].bufs <= all'[i].bufs
    requires forall a :: 0 <= a < |accepted| && accepted[a].key == e.key ==> accepted[a].batch <= e.batch
    ensures OrderInv(all', accepted + [e], openers')
  {
    var accepted' := accepted + [e];
    assert forall a :: 0 <= a < |accepted| ==> accepted'[a] == accepted[a];
    forall a | 0 <= a < |accepted'|
      ensures && accepted'[a].batch < |all'|
              && openers'[accepted'[a].batch] <= a
              && all'[accepted'[a].batch].key == accepted'[a].key
              && accepted'[a].write in all'[accepted'[a].batch].bufs
    {
      if a < |accepted| {
        PrefixMember(all[accepted[a].batch].bufs, all'[accepted[a].batch].bufs, accepted[a].write);
      } else if e.batch < |all| {
        assert all'[e.batch].bufs[|all[e.batch].bufs|] == e.write;
        assert openers[e.batch] < |accepted|;
      }
    }
    forall i | 0 <= i < |openers'|
      ensures && openers'[i] < |accepted'|
              && accepted'[openers'[i]].batch == i
              && all'[i].bufs != [] && all'[i].bufs[0] == accepted'[openers'[i]].write
    {
      if i < |openers| {
        assert all'[i].bufs[0] == all[i].bufs[0];
      }
    }
  }

  lemma PrefixMember<T>(a: seq<T>, b: seq<T>, x: T)
    requires a <= b && x in a
    ensures x in b
  {
    var j :| 0 <= j < |a| && a[j] == x;
    assert b[j] == x;
  }

  // ---------------------------------------------------------------- posts and batches

  /** Steps leave the own batch of a post alone, except that `Add` gives it one. */
  lemma OwnKept(cfg: Config, s: State, step: Step, heap: Heap, p: nat)
    requires Enabled(s, step, heap) && p in s.posts
    requires step.Add? && TouchesPost(step, p) ==> s.size + |s.posts[p].write.data| > cfg.maxSize
    ensures var s' := Apply(cfg, s, step, heap);
            && p in s'.posts && Own(s'.posts[p].pc) == Own(s.posts[p].pc)
            && s'.posts[p].write == s.posts[p].write && s'.posts[p].key == s.posts[p].key
  {
  }

  predicate Accepts(cfg: Config, s: State, step: Step) {
    step.Add? && step.p in s.posts && s.size + |s.posts[step.p].write.data| <= cfg.maxSize
  }

  lemma QuietBatches(cfg: Config, s: State, step: Step, heap: Heap)
    requires Enabled(s, step, heap) && !Accepts(cfg, s, step)
    ensures var s' := Apply(cfg, s, step, heap);
            && s'.accepted == s.accepted && s'.openers == s.openers && |s'.All()| == |s.All()|
            && forall i :: 0 <= i < |s.All()| ==>
                 s'.All()[i].key == s.All()[i].key && s'.All()[i].bufs == s.All()[i].bufs
  {
    match step
    case Publish => InHandUpdate(s, Apply(cfg, s, Publish, heap), Apply(cfg, s, Publish, heap).popped[|s.popped| - 1]);
    case Done => InHandUpdate(s, Apply(cfg, s, Done, heap), Apply(cfg, s, Done, heap).popped[|s.popped| - 1]);
    case _ =>
  }

  lemma KeepsStream(cfg: Config, s: State, step: Step, heap: Heap)
    requires Sealed(s.list) && StreamInv(s) && Enabled(s, step, heap)
    ensures StreamInv(Apply(cfg, s, step, heap))
  {
    var s' := Apply(cfg, s, step, heap);
    forall k
      ensures Stream(s'.All(), k) == KeyWrites(s'.accepted, k)
    {
      if Accepts(cfg, s, step) {
        AddKeepsStream(cfg, s, step.p, k);
      } else {
        QuietBatches(cfg, s, step, heap);
        StreamSame(s.All(), s'.All(), k);
      }
    }
  }

  lemma KeepsOrder(cfg: Config, s: State, step: Step, heap: Heap)
    requires Sealed(s.list) && OrderInv(s.All(), s.accepted, s.openers) && Enabled(s, step, heap)
    ensures var s' := Apply(cfg, s, step, heap); OrderInv(s'.All(), s'.accepted, s'.openers)
  {
    if Accepts(cfg, s, step) {
      AddKeepsOrder(cfg, s, step.p);
    } else {
      QuietBatches(cfg, s, step, heap);
    }
  }

  lemma KeepsRefs(cfg: Config, s: State, step: Step, heap: Heap)
    requires RefsInv(s.All(), s.posts) && Enabled(s, step, heap)
    requires forall p :: p in s.posts ==> s.posts[p].write.req == p
    ensures var s' := Apply(cfg, s, step, heap); RefsInv(s'.All(), s'.posts)
  {
    var s' := Apply(cfg, s, step, heap);
    if Accepts(cfg, s, step) {
      AddKeepsRefs(cfg, s, step.p);
    } else {
      QuietBatches(cfg, s, step, heap);
      forall i, w | 0 <= i < |s'.All()| && w in s'.All()[i].bufs
        ensures && w.req in s'.posts && s'.posts[w.req].write == w && s'.posts[w.req].key == s'.All()[i].key
                && Own(s'.posts[w.req].pc) == Some(i)
      {
        assert w in s.All()[i].bufs;
        OwnKept(cfg, s, step, heap, w.req);
      }
    }
  }

  lemma AddKeepsRefs(cfg: Config, s: State, p: nat)
    requires RefsInv(s.All(), s.posts) && p in s.posts
    requires s.posts[p].write.req == p && s.posts[p].pc.Adding?
    requires s.size + |s.posts[p].write.data| <= cfg.maxSize
    ensures var s' := AddTo(cfg, s, p); RefsInv(s'.All(), s'.posts)
  {
    var s', post := AddTo(cfg, s, p), s.posts[p];
    AllAfterAdd(cfg, s, p);
    var own := |s.popped| + Slot(s.list, post.write, post.key, cfg.maxBatch);
    forall i, w | 0 <= i < |s'.All()| && w in s'.All()[i].bufs
      ensures && w.req in s'.posts && s'.posts[w.req].write == w && s'.posts[w.req].key == s'.All()[i].key
              && Own(s'.posts[w.req].pc) == Some(i)
    {
      if i < |s.All()| && w in s.All()[i].bufs {
        assert w.req != p;
      } else {
        assert i == own && w == post.write;
      }
    }
  }

  lemma KeepsAccepted(cfg: Config, s: State, step: Step, heap: Heap)
    requires AcceptedInv(s.accepted, s.posts) && Enabled(s, step, heap)
    requires forall p :: p in s.posts ==> s.posts[p].write.req == p
    ensures var s' := Apply(cfg, s, step, heap); AcceptedInv(s'.accepted, s'.posts)
  {
    var s' := Apply(cfg, s, step, heap);
    if Accepts(cfg, s, step) {
      forall a | 0 <= a < |s.accepted|
        ensures s.accepted[a].write.req != step.p
      {
        assert Own(s.posts[step.p].pc) == None;
      }
    } else {
      QuietBatches(cfg, s, step, heap);
      forall a | 0 <= a < |s'.accepted|
        ensures s'.accepted[a].write.req in s'.posts
        ensures Own(s'.posts[s'.accepted[a].write.req].pc) == Some(s'.accepted[a].batch)
      {
        OwnKept(cfg, s, step, heap, s.accepted[a].write.req);
      }
    }
  }

  lemma KeepsLinked(cfg: Config, s: State, step: Step, heap: Heap)
    requires LinkedInv(s) && Enabled(s, step, heap)
    ensures LinkedInv(Apply(cfg, s, step, heap))
  {
    if Accepts(cfg, s, step) {
      AllAfterAdd(cfg, s, step.p);
    } else {
      QuietBatches(cfg, s, step, heap);
    }
  }

  // ---------------------------------------------------------------- the run goroutine

  /** Steps that leave the batches, the run goroutine and its history alone. */
  lemma QuietRun(s: State, s': State)
    requires RunInv(s)
    requires s'.popped == s.popped && s'.list == s.list && s'.run == s.run && s'.size == s.size
    requires s'.consumed == s.consumed && s.log <= s'.log
    ensures RunInv(s')
  {
    forall i | 0 <= i < |s.consumed|
      ensures s'.consumed[i] in s'.log
    {
      PrefixMember(s.log, s'.log, s.consumed[i]);
    }
    assert s'.All() == s.All() && s'.Released() == s.Released();
    assert ConsumedInv(s');
    assert forall i :: IsShown(s', i) == IsShown(s, i);
  }

  /** Adding changes no counter and no response of an existing batch. */
  lemma GrownRun(s: State, s': State)
    requires RunInv(s)
    requires s'.popped == s.popped && s'.consumed == s.consumed && s'.log == s.log
    requires s'.run == s.run || (s.run == Asleep && s'.run == Idle)
    requires s'.run == Asleep ==> s'.size == 0
    requires |s'.All()| >= |s.All()|
    requires forall i :: 0 <= i < |s.All()| ==>
      s'.All()[i].wg == s.All()[i].wg && s'.All()[i].resp == s.All()[i].resp
    requires forall i :: |s.All()| <= i < |s'.All()| ==> s'.All()[i].wg == 1 && s'.All()[i].resp == None
    ensures RunInv(s')
  {
    assert s'.Released() == s.Released();
    assert ConsumedInv(s');
    assert forall i :: IsShown(s', i) == IsShown(s, i);
    assert forall i :: i >= |s.All()| ==> !IsShown(s, i);
  }

  lemma AcceptKeepsRun(cfg: Config, s: State, p: nat)
    requires RunInv(s) && p in s.posts && s.size + |s.posts[p].write.data| <= cfg.maxSize
    ensures RunInv(AddTo(cfg, s, p))
  {
    AllAfterAdd(cfg, s, p);
    GrownRun(s, AddTo(cfg, s, p));
  }

  lemma AddKeepsRun(cfg: Config, s: State, p: nat)
    requires RunInv(s) && p in s.posts
    ensures RunInv(AddTo(cfg, s, p))
  {
    if s.size + |s.posts[p].write.data| <= cfg.maxSize {
      AcceptKeepsRun(cfg, s, p);
    } else {
      QuietRun(s, AddTo(cfg, s, p));
    }
  }

  lemma PopKeepsRun(cfg: Config, s: State, heap: Heap)
    requires RunInv(s) && Enabled(s, Pop, heap)
    ensures RunInv(Apply(cfg, s, Pop, heap))
  {
    var s' := Apply(cfg, s, Pop, heap);
    assert s'.All() == s.All();
    assert s'.popped[..|s.popped|] == s.popped;
    assert s'.popped[|s.popped|].bufs[..0] == [];
  }

  /** The post of a write in the batch in hand is still waiting for it. */
  lemma InHandUnfinished(cfg: Config, s: State, j: nat)
    requires RefsInv(s.All(), s.posts) && PostsInv(cfg, s)
    requires s.InFlight() && s.popped != [] && j < |s.popped[|s.popped| - 1].bufs|
    ensures var w := s.popped[|s.popped| - 1].bufs[j];
            w.req in s.posts && s.posts[w.req].write == w && !Finished(s.posts[w.req])
  {
    var last := |s.popped| - 1;
    var w := s.popped[last].bufs[j];
    assert s.All()[last] == s.popped[last];
    assert w in s.All()[last].bufs;
    assert PostOk(cfg, s, w.req);
  }

  /** The buffer a copy step reads still holds what its post handed over. */
  lemma CopyReadsData(cfg: Config, s: State, heap: Heap)
    requires RefsInv(s.All(), s.posts) && PostsInv(cfg, s)
    requires Stable(s, heap) && Enabled(s, Copy, heap)
    ensures var w := s.popped[|s.popped| - 1].bufs[s.run.copied]; heap[w.buf] == w.data
  {
    InHandUnfinished(cfg, s, s.run.copied);
  }

  lemma CopyKeepsRun(cfg: Config, s: State, heap: Heap)
    requires RunInv(s) && RefsInv(s.All(), s.posts) && PostsInv(cfg, s)
    requires Stable(s, heap) && Enabled(s, Copy, heap)
    ensures RunInv(Apply(cfg, s, Copy, heap))
  {
    CopyReadsData(cfg, s, heap);
    var bufs, c := s.popped[|s.popped| - 1].bufs, s.run.copied;
    assert bufs[..c + 1] == bufs[..c] + [bufs[c]];
    BodyAppend(bufs[..c], bufs[c]);
    var s' := Apply(cfg, s, Copy, heap);
    assert ConsumedInv(s') && WaitGroupInv(s') && ResponseInv(s');
  }

  lemma AttemptKeepsRun(cfg: Config, s: State, heap: Heap, o: Outcome)
    requires RunInv(s) && Enabled(s, Attempt(o), heap)
    ensures RunInv(Apply(cfg, s, Attempt(o), heap))
  {
    var s' := Apply(cfg, s, Attempt(o), heap);
    if Settles(o) {
      assert ConsumedInv(s');
      assert forall i :: IsShown(s', i) == IsShown(s, i);
    } else {
      QuietRun(s, s');
    }
  }

  lemma PublishKeepsRun(cfg: Config, s: State, heap: Heap)
    requires RunInv(s) && Enabled(s, Publish, heap)
    ensures RunInv(Apply(cfg, s, Publish, heap))
  {
    var s', last := Apply(cfg, s, Publish, heap), |s.popped| - 1;
    InHandUpdate(s, s', s'.popped[last]);
    assert ConsumedInv(s');
    assert WaitGroupInv(s');
    forall i | 0 <= i < |s'.All()|
      ensures s'.All()[i].resp == if IsShown(s', i) then Some(s'.consumed[i].outcome.resp) else None
    {
      assert i != last ==> IsShown(s', i) == IsShown(s, i);
    }
  }

  lemma DoneKeepsRun(cfg: Config, s: State, heap: Heap)
    requires RunInv(s) && Enabled(s, Done, heap)
    ensures RunInv(Apply(cfg, s, Done, heap))
  {
    var s', last := Apply(cfg, s, Done, heap), |s.popped| - 1;
    InHandUpdate(s, s', s'.popped[last]);
    assert s'.Released() == s.Released() + 1 == last + 1;
    assert ConsumedInv(s');
    assert forall i :: 0 <= i ==> IsShown(s', i) == IsShown(s, i);
  }

  lemma KeepsRun(cfg: Config, s: State, step: Step, heap: Heap)
    requires RunInv(s) && RefsInv(s.All(), s.posts) && PostsInv(cfg, s)
    requires Stable(s, heap) && Enabled(s, step, heap)
    ensures RunInv(Apply(cfg, s, step, heap))
  {
    match step
    case Add(p) => AddKeepsRun(cfg, s, p);
    case Pop => PopKeepsRun(cfg, s, heap);
    case Copy => CopyKeepsRun(cfg, s, heap);
    case Attempt(o) => AttemptKeepsRun(cfg, s, heap, o);
    case Publish => PublishKeepsRun(cfg, s, heap);
    case Done => DoneKeepsRun(cfg, s, heap);
    case _ => OtherKeepsRun(cfg, s, step, heap);
  }

  lemma OtherKeepsRun(cfg: Config, s: State, step: Step, heap: Heap)
    requires RunInv(s) && Enabled(s, step, heap)
    requires !step.Add? && !step.Pop? && !step.Copy? && !step.Attempt? && !step.Publish? && !step.Done?
    ensures RunInv(Apply(cfg, s, step, heap))
  {
    if step.EndCopy? || step.Sleep? || step.ClearFlag? {
      HandKeepsRun(cfg, s, step, heap);
    } else {
      assert TouchesPost(step, step.p);
      QuietRun(s, Apply(cfg, s, step, heap));
    }
  }

  lemma HandKeepsRun(cfg: Config, s: State, step: Step, heap: Heap)
    requires RunInv(s) && Enabled(s, step, heap)
    requires step.EndCopy? || step.Sleep? || step.ClearFlag?
    ensures RunInv(Apply(cfg, s, step, heap))
  {
    if step.EndCopy? {
      var bufs := s.popped[|s.popped| - 1].bufs;
      assert bufs[..|bufs|] == bufs;
    }
    SameHandRun(s, Apply(cfg, s, step, heap));
  }

  /** The run goroutine moves on without touching any batch. */
  lemma SameHandRun(s: State, s': State)
    requires RunInv(s)
    requires s'.popped == s.popped && s'.list == s.list && s'.consumed == s.consumed && s'.log == s.log
    requires s'.InFlight() == s.InFlight() && HasAnswer(s'.run) == HasAnswer(s.run)
    requires (s'.run.Published? || s'.run.Cleared?) == (s.run.Published? || s.run.Cleared?)
    requires ConsumedInv(s') ==> BodyInv(s')
    ensures RunInv(s')
  {
    assert s'.All() == s.All() && s'.Released() == s.Released();
    assert ConsumedInv(s');
    assert forall i :: IsShown(s', i) == IsShown(s, i);
  }

  // ---------------------------------------------------------------- the posts

  lemma AddKeepsOwn(cfg: Config, s: State, p: nat)
    requires LinkedInv(s) && p in s.posts && PostOk(cfg, s, p) && s.posts[p].pc.Adding?
    ensures PostOk(cfg, AddTo(cfg, s, p), p)
  {
    if s.size + |s.posts[p].write.data| <= cfg.maxSize {
      AllAfterAdd(cfg, s, p);
    }
  }

  /** Whichever batch the late read finds, it is at or after the own batch, and it is
      another one exactly when the own batch was at the head and has been popped. */
  lemma ReadBackKeepsOwn(cfg: Config, s: State, heap: Heap, p: nat)
    requires LinkedInv(s) && p in s.posts && PostOk(cfg, s, p) && Enabled(s, ReadBack(p), heap)
    ensures PostOk(cfg, Apply(cfg, s, ReadBack(p), heap), p)
  {
    var s' := Apply(cfg, s, ReadBack(p), heap);
    assert s'.All() == s.All();
  }

  lemma ReleaseKeepsOwn(cfg: Config, s: State, heap: Heap, p: nat)
    requires RunInv(s) && p in s.posts && PostOk(cfg, s, p) && Enabled(s, Release(p), heap)
    ensures PostOk(cfg, Apply(cfg, s, Release(p), heap), p)
  {
    var s', on := Apply(cfg, s, Release(p), heap), s.posts[p].pc.on;
    assert s'.All() == s.All();
    assert on < s.Released() && IsShown(s, on);
    assert s.All()[on].resp == Some(s.consumed[on].outcome.resp);
  }

  lemma DirectKeepsOwn(cfg: Config, s: State, heap: Heap, p: nat, o: Outcome)
    requires Stable(s, heap) && p in s.posts && PostOk(cfg, s, p) && Enabled(s, DirectPost(p, o), heap)
    ensures PostOk(cfg, Apply(cfg, s, DirectPost(p, o), heap), p)
  {
    var s', post := Apply(cfg, s, DirectPost(p, o), heap), s.posts[p];
    if o.Answered? {
      var e := s'.log[|s.log|];
      assert OccursAt(e.body, post.write.data, 0);
      assert Delivered(s'.log, post.key, post.write.data, o.resp);
    }
  }

  lemma KeepsOwnPost(cfg: Config, s: State, step: Step, heap: Heap, p: nat)
    requires RunInv(s) && LinkedInv(s) && PostsInv(cfg, s)
    requires Stable(s, heap) && Enabled(s, step, heap) && TouchesPost(step, p)
    ensures p in Apply(cfg, s, step, heap).posts && PostOk(cfg, Apply(cfg, s, step, heap), p)
  {
    match step
    case Begin(_, _, _) =>
    case Load(_) =>
    case DirectPost(_, o) => DirectKeepsOwn(cfg, s, heap, p, o);
    case Store(_) =>
    case Add(_) => AddKeepsOwn(cfg, s, p);
    case ReadBack(_) => ReadBackKeepsOwn(cfg, s, heap, p);
    case Release(_) => ReleaseKeepsOwn(cfg, s, heap, p);
  }

  lemma KeepsPosts(cfg: Config, s: State, step: Step, heap: Heap)
    requires RunInv(s) && LinkedInv(s) && PostsInv(cfg, s)
    requires Stable(s, heap) && Enabled(s, step, heap)
    ensures PostsInv(cfg, Apply(cfg, s, step, heap))
  {
    var s' := Apply(cfg, s, step, heap);
    StepExtends(cfg, s, step, heap);
    forall p | p in s'.posts
      ensures PostOk(cfg, s', p)
    {
      if TouchesPost(step, p) {
        KeepsOwnPost(cfg, s, step, heap, p);
      } else {
        assert p in s.posts;
        OthersUntouched(cfg, s, step, heap, p);
        PostOkMono(cfg, s, s', p);
      }
    }
  }

  // ---------------------------------------------------------------- all reachable states

  lemma InitInv(cfg: Config, s: State)
    requires s == Init()
    ensures Inv(cfg, s)
  {
    InitQueue(cfg, s);
    InitRun(s);
    InitOrder(s);
    InitPosts(cfg, s);
  }

  lemma InitQueue(cfg: Config, s: State)
    requires s == Init()
    ensures QueueOk(s.list, s.size, cfg.maxSize, cfg.maxBatch)
  {
  }

  lemma InitRun(s: State)
    requires s == Init()
    ensures RunInv(s)
  {
    assert s.All() == [];
  }

  lemma InitOrder(s: State)
    requires s == Init()
    ensures OrderInv(s.All(), s.accepted, s.openers)
    ensures AcceptedInv(s.accepted, s.posts) && RefsInv(s.All(), s.posts)
  {
    EmptyOrder(s.All(), s.accepted, s.openers);
  }

  lemma EmptyOrder(all: seq<Batch>, accepted: seq<Entry>, openers: seq<nat>)
    requires |all| == |accepted| == |openers| == 0
    ensures OrderInv(all, accepted, openers)
  {
  }

  lemma InitPosts(cfg: Config, s: State)
    requires s == Init()
    ensures LinkedInv(s) && PostsInv(cfg, s)
  {
    assert s.All() == [];
  }

  lemma KeepsInv(cfg: Config, s: State, step: Step, heap: Heap)
    requires Inv(cfg, s) && Stable(s, heap) && Enabled(s, step, heap)
    ensures Inv(cfg, Apply(cfg, s, step, heap))
  {
    KeepsQueue(cfg, s, step, heap);
    KeepsStream(cfg, s, step, heap);
    KeepsOrder(cfg, s, step, heap);
    assert forall p :: p in s.posts ==> PostOk(cfg, s, p);
    KeepsAccepted(cfg, s, step, heap);
    KeepsRefs(cfg, s, step, heap);
    KeepsRun(cfg, s, step, heap);
    KeepsLinked(cfg, s, step, heap);
    KeepsPosts(cfg, s, step, heap);
  }

  lemma {:induction false} RunKeepsInv(cfg: Config, run: seq<State>, i: nat)
    requires IsRun(cfg, run) && i < |run|
    ensures Inv(cfg, run[i])
  {
    if i == 0 {
      InitInv(cfg, run[0]);
    } else {
      RunKeepsInv(cfg, run, i - 1);
      assert Next(cfg, run[i - 1], run[i - 1 + 1]);
      var step, heap :|
        Stable(run[i - 1], heap) && Enabled(run[i - 1], step, heap) && run[i] == Apply(cfg, run[i - 1], step, heap);
      KeepsInv(cfg, run[i - 1], step, heap);
    }
  }

  lemma ReachableInv(cfg: Config, s: State)
    requires Reachable(cfg, s)
    ensures Inv(cfg, s)
  {
    var run :| IsRun(cfg, run) && run[|run| - 1] == s;
    RunKeepsInv(cfg, run, |run| - 1);
  }

  lemma ReachablePost(cfg: Config, s: State, p: nat)
    requires Reachable(cfg, s) && p in s.posts
    ensures PostOk(cfg, s, p) && LinkedInv(s)
  {
    ReachableInv(cfg, s);
  }
}
