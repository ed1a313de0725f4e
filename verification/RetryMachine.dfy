/** One backend of the HTTP relay as a step system: any number of `post` calls and the
    single `run` goroutine share the queue of batches and the `buffering` flag. A
    backend without a retry buffer is the same system with `buffered` false, where
    `post` is one direct POST.

    Every step is one shared action of the code: an atomic load or store, a critical
    section, one POST, one read of a pooled buffer. Steps of different threads
    interleave freely; the backend's answers are chosen by the steps. */
module RetryMachine {
  import opened Basics
  import opened BatchList

  datatype Config = Config(buffered: bool, maxSize: int, maxBatch: int)

  const KB: int := 1024
  const MB: int := 1024 * KB
  const DEFAULT_BATCH_KB: int := 512

  /** The buffering options of one configured output. */
  datatype Output = Output(bufferSizeMB: int, maxBatchKB: int)

  /** The backend `newHTTPBackend` sets up for an output. */
  function NewBackend(output: Output): Config {
    var batch := if output.maxBatchKB > 0 then output.maxBatchKB * KB else DEFAULT_BATCH_KB * KB;
    Config(output.bufferSizeMB > 0, output.bufferSizeMB * MB, batch)
  }

  /** What a `post` returns: an answer, the error of the direct POST, or ErrBufferFull. */
  datatype Result = Got(resp: Response) | PostFailed | BufferFull

  /** Where `cur` points when `add` leaves its loop: at the `head` field of the list, or
      at the `next` field of the batch with this number. */
  datatype Cell = AtHead | After(prev: nat)

  /** How a buffered post came by its answer: the batch waited on, and its own batch. */
  datatype Wait = Wait(on: nat, own: nat)

  /** Program points of `post`. Batches are numbered in order of creation; `own` is the
      batch that holds the write, `on` the batch whose WaitGroup is waited on. */
  datatype PostPc =
    | Started
    | Posting                        // loaded the flag as 0
    | Refused                        // the direct POST failed
    | Adding(stored: bool)           // about to call add
    | Reading(cell: Cell, own: nat)  // add has unlocked but not yet read *cur
    | Waiting(on: nat, own: nat)
    | Crashed(own: nat)              // *cur was nil: wg.Wait on a nil batch
    | NilResponse(own: nat)          // released, but batch.resp was nil
    | Returned(result: Result, via: Option<Wait>)

  /** `overtaken` records that the batch of the write was popped from the head before
      `add` read `*cur`. */
  datatype Post = Post(write: Write, key: Key, pc: PostPc, overtaken: bool)

  /** Program points of `run`; the batch in hand is the last one popped. */
  datatype RunPc =
    | Idle                             // in pop, awake
    | Asleep                           // in cond.Wait
    | Copying(copied: nat, body: Bytes)
    | Sending(body: Bytes)
    | Settled(resp: Response)          // answered, nothing stored yet
    | Published                        // batch.resp stored
    | Cleared                          // flag cleared

  /** An accepted write and the number of the batch it joined. */
  datatype Entry = Entry(write: Write, key: Key, batch: nat)

  /** `popped` keeps the batches taken off the queue, which `run` and the waiters still
      point to. `accepted`, `openers`, `log` and `consumed` are histories no step depends
      on: accepted writes in order, for each batch the index in `accepted` of the write
      that opened it, all POSTs, and the POSTs that settled a batch. */
  datatype State = State(
    buffering: bool,
    list: seq<Batch>,
    size: int,
    linked: set<nat>,  // batches whose `next` field is set
    run: RunPc,
    posts: map<nat, Post>,
    popped: seq<Batch>,
    accepted: seq<Entry>,
    openers: seq<nat>,
    log: seq<Posted>,
    consumed: seq<Posted>)
  {
    /** All batches ever created; the index is the number. */
    function All(): seq<Batch> {
      popped + list
    }

    predicate InFlight() {
      !run.Idle? && !run.Asleep?
    }

    /** How many batches have released their waiters. */
    function Released(): int {
      if InFlight() then |popped| - 1 else |popped|
    }

    function Goto(p: nat, pc: PostPc): State
      requires p in posts
    {
      this.(posts := posts[p := posts[p].(pc := pc)])
    }
  }

  function Init(): State {
    State(false, [], 0, {}, Idle, map[], [], [], [], [], [])
  }

  /** Contents of the pooled buffers. */
  type Heap = map<nat, Bytes>

  datatype Step =
    | Begin(p: nat, write: Write, key: Key)
    | Load(p: nat)
    | DirectPost(p: nat, outcome: Outcome)
    | Store(p: nat)
    | Add(p: nat)
    | ReadBack(p: nat)
    | Release(p: nat)
    | Sleep
    | Pop
    | Copy
    | EndCopy
    | Attempt(outcome: Outcome)
    | Publish
    | ClearFlag
    | Done

  /** Whether the thread of the step is at the step's program point and not blocked. */
  predicate Enabled(s: State, step: Step, heap: Heap) {
    match step
    case Begin(p, w, k) => p !in s.posts && w.req == p
    case Load(p) => p in s.posts && s.posts[p].pc.Started?
    case DirectPost(p, o) => p in s.posts && s.posts[p].pc.Posting? && s.posts[p].write.buf in heap
    case Store(p) => p in s.posts && s.posts[p].pc.Refused?
    case Add(p) => p in s.posts && s.posts[p].pc.Adding?
    case ReadBack(p) => p in s.posts && s.posts[p].pc.Reading?
    case Release(p) =>
      && p in s.posts && s.posts[p].pc.Waiting?
      && s.posts[p].pc.on < |s.All()| && s.All()[s.posts[p].pc.on].wg == 0
    case Sleep => s.run.Idle? && s.size == 0
    case Pop => s.run.Idle? && s.size != 0 && s.list != []
    case Copy =>
      && s.run.Copying? && s.popped != []
      && s.run.copied < |s.popped[|s.popped| - 1].bufs|
      && s.popped[|s.popped| - 1].bufs[s.run.copied].buf in heap
    case EndCopy =>
      s.run.Copying? && s.popped != [] && s.run.copied == |s.popped[|s.popped| - 1].bufs|
    case Attempt(o) => s.run.Sending? && s.popped != []
    case Publish => s.run.Settled? && s.popped != []
    case ClearFlag => s.run.Published? && s.popped != []
    case Done => s.run.Cleared? && s.popped != []
  }

  /** `*cur` for a cell: the number of a batch, or None for nil. */
  function Target(s: State, cell: Cell): Option<nat> {
    match cell
    case AtHead => if s.list == [] then None else Some(|s.popped|)
    case After(prev) => if prev in s.linked then Some(prev + 1) else None
  }

  /** The critical section of `add` for post `p`. */
  function AddTo(cfg: Config, s: State, p: nat): State
    requires p in s.posts
  {
    var post := s.posts[p];
    var w := post.write;
    if s.size + |w.data| > cfg.maxSize then
      s.Goto(p, Returned(BufferFull, None))
    else
      var at := Slot(s.list, w, post.key, cfg.maxBatch);
      var own := |s.popped| + at;
      var isNew := at == |s.list|;
      s.(size := s.size + |w.data|,
         list := Insert(s.list, w, post.key, cfg.maxBatch),
         linked := if isNew && at > 0 then s.linked + {own - 1} else s.linked,
         run := if s.run.Asleep? then Idle else s.run,
         posts := s.posts[p := post.(pc := Reading(if at == 0 then AtHead else After(own - 1), own))],
         accepted := s.accepted + [Entry(w, post.key, own)],
         openers := if isNew then s.openers + [|s.accepted|] else s.openers)
  }

  function Apply(cfg: Config, s: State, step: Step, heap: Heap): State
    requires Enabled(s, step, heap)
  {
    match step
    case Begin(p, w, k) => s.(posts := s.posts[p := Post(w, k, Started, false)])
    case Load(p) => s.Goto(p, if cfg.buffered && s.buffering then Adding(false) else Posting)
    case DirectPost(p, o) =>
      var post := s.posts[p];
      var s' := s.(log := s.log + [Posted(post.key, heap[post.write.buf], o)]);
      if o.Answered? && (!cfg.buffered || Settles(o)) then s'.Goto(p, Returned(Got(o.resp), None))
      else if !cfg.buffered then s'.Goto(p, Returned(PostFailed, None))
      else s'.Goto(p, Refused)
    case Store(p) => s.(buffering := true).Goto(p, Adding(true))
    case Add(p) => AddTo(cfg, s, p)
    case ReadBack(p) =>
      var post := s.posts[p];
      var late := post.pc.cell.AtHead? && |s.popped| > post.pc.own;
      var target := Target(s, post.pc.cell);
      var pc := if target.None? then Crashed(post.pc.own) else Waiting(target.value, post.pc.own);
      s.(posts := s.posts[p := post.(pc := pc, overtaken := late)])
    case Release(p) =>
      var pc := s.posts[p].pc;
      var resp := s.All()[pc.on].resp;
      s.Goto(p, if resp.None? then NilResponse(pc.own)
                else Returned(Got(resp.value), Some(Wait(pc.on, pc.own))))
    case Sleep => s.(run := Asleep)
    case Pop =>
      s.(run := Copying(0, []), popped := s.popped + [s.list[0]],
         size := s.size - s.list[0].size, list := s.list[1..])
    case Copy =>
      var w := s.popped[|s.popped| - 1].bufs[s.run.copied];
      s.(run := Copying(s.run.copied + 1, s.run.body + heap[w.buf]))
    case EndCopy => s.(run := Sending(s.run.body))
    case Attempt(o) =>
      var posted := Posted(s.popped[|s.popped| - 1].key, s.run.body, o);
      if Settles(o) then
        s.(log := s.log + [posted], consumed := s.consumed + [posted], run := Settled(o.resp))
      else s.(log := s.log + [posted])
    case Publish =>
      var last := |s.popped| - 1;
      s.(popped := s.popped[last := s.popped[last].(resp := Some(s.run.resp))], run := Published)
    case ClearFlag => s.(buffering := false, run := Cleared)
    case Done =>
      var last := |s.popped| - 1;
      s.(popped := s.popped[last := s.popped[last].(wg := s.popped[last].wg - 1)], run := Idle)
  }

  predicate Finished(post: Post) {
    post.pc.Returned?
  }

  /** What the surrounding relay guarantees: the buffer of an unfinished `post` still
      holds the bytes that were handed over. */
  ghost predicate Stable(s: State, heap: Heap) {
    forall p :: p in s.posts && !Finished(s.posts[p]) ==>
      s.posts[p].write.buf in heap && heap[s.posts[p].write.buf] == s.posts[p].write.data
  }

  ghost predicate Next(cfg: Config, s: State, s': State) {
    exists step, heap ::
      Stable(s, heap) && Enabled(s, step, heap) && s' == Apply(cfg, s, step, heap)
  }

  ghost predicate IsRun(cfg: Config, run: seq<State>) {
    && run != [] && run[0] == Init()
    && forall i :: 0 <= i < |run| - 1 ==> Next(cfg, run[i], run[i + 1])
  }

  ghost predicate Reachable(cfg: Config, s: State) {
    exists run :: IsRun(cfg, run) && run[|run| - 1] == s
  }

  lemma InitReachable(cfg: Config)
    ensures Reachable(cfg, Init())
  {
    assert IsRun(cfg, [Init()]);
  }

  lemma StepReachable(cfg: Config, s: State, step: Step, heap: Heap)
    requires Reachable(cfg, s) && Stable(s, heap) && Enabled(s, step, heap)
    ensures Reachable(cfg, Apply(cfg, s, step, heap))
  {
    var run :| IsRun(cfg, run) && run[|run| - 1] == s;
    var s' := Apply(cfg, s, step, heap);
    assert Next(cfg, s, s');
    assert IsRun(cfg, run + [s']);
  }

  lemma PrefixReachable(cfg: Config, run: seq<State>, i: nat)
    requires IsRun(cfg, run) && i < |run|
    ensures Reachable(cfg, run[i])
  {
    assert IsRun(cfg, run[..i + 1]);
  }

  lemma {:induction false} HoldsAlong(cfg: Config, inv: State -> bool, run: seq<State>, i: nat)
    requires IsRun(cfg, run) && i < |run| && inv(Init())
    requires forall s, s' :: Reachable(cfg, s) && Next(cfg, s, s') && inv(s) ==> inv(s')
    ensures inv(run[i])
  {
    if i > 0 {
      HoldsAlong(cfg, inv, run, i - 1);
      PrefixReachable(cfg, run, i - 1);
      assert Next(cfg, run[i - 1], run[i - 1 + 1]);
    }
  }

  /** What holds at first and is kept by every step of a reachable state always holds. */
  lemma AlwaysHolds(cfg: Config, inv: State -> bool, s: State)
    requires Reachable(cfg, s) && inv(Init())
    requires forall s, s' :: Reachable(cfg, s) && Next(cfg, s, s') && inv(s) ==> inv(s')
    ensures inv(s)
  {
    var run :| IsRun(cfg, run) && run[|run| - 1] == s;
    HoldsAlong(cfg, inv, run, |run| - 1);
  }

  ghost predicate PostsGrow(posts: map<nat, Post>, posts': map<nat, Post>) {
    forall p :: p in posts ==>
      p in posts' && posts'[p].write == posts[p].write && posts'[p].key == posts[p].key
      && (posts[p].pc.Returned? ==> posts'[p] == posts[p])
  }

  /** Steps of the run goroutine. */
  predicate RunStep(step: Step) {
    step.Sleep? || step.Pop? || step.Copy? || step.EndCopy? || step.Attempt? || step.Publish? ||
    step.ClearFlag? || step.Done?
  }

  lemma PostStepPosts(cfg: Config, s: State, step: Step, heap: Heap)
    requires Enabled(s, step, heap) && !RunStep(step) && !step.Begin?
    ensures var s', p := Apply(cfg, s, step, heap), step.p;
            && p in s.posts && !s.posts[p].pc.Returned? && p in s'.posts
            && s'.posts[p].write == s.posts[p].write && s'.posts[p].key == s.posts[p].key
            && s'.posts == s.posts[p := s'.posts[p]]
  {
  }

  /** Posts stay, keep what they carry, and once returned never change. */
  lemma PostsKept(cfg: Config, s: State, step: Step, heap: Heap)
    requires Enabled(s, step, heap)
    ensures var s' := Apply(cfg, s, step, heap);
            && PostsGrow(s.posts, s'.posts)
            && (forall p :: p in s'.posts ==> p in s.posts || (step.Begin? && p == step.p))
  {
    if !RunStep(step) && !step.Begin? {
      PostStepPosts(cfg, s, step, heap);
    }
  }

  // ---------------------------------------------------------------- stretches of a run

  /** From `s` to `s'` by steps of posts already begun, while the buffers stay put. */
  ghost predicate Leads(cfg: Config, heap: Heap, s: State, s': State) {
    exists path :: IsPath(cfg, heap, path) && path[0] == s && path[|path| - 1] == s'
  }

  ghost predicate IsPath(cfg: Config, heap: Heap, path: seq<State>) {
    path != [] && forall i :: 0 <= i < |path| - 1 ==> Moves(cfg, heap, path[i], path[i + 1])
  }

  ghost predicate Moves(cfg: Config, heap: Heap, s: State, s': State) {
    exists step: Step :: !step.Begin? && Enabled(s, step, heap) && s' == Apply(cfg, s, step, heap)
  }

  lemma LeadsSelf(cfg: Config, heap: Heap, s: State)
    ensures Leads(cfg, heap, s, s)
  {
    assert IsPath(cfg, heap, [s]);
  }

  lemma LeadsStep(cfg: Config, heap: Heap, s: State, s': State, step: Step)
    requires Leads(cfg, heap, s, s') && !step.Begin? && Enabled(s', step, heap)
    ensures Leads(cfg, heap, s, Apply(cfg, s', step, heap))
  {
    var path :| IsPath(cfg, heap, path) && path[0] == s && path[|path| - 1] == s';
    var s'' := Apply(cfg, s', step, heap);
    assert Moves(cfg, heap, s', s'');
    assert IsPath(cfg, heap, path + [s'']);
  }

  lemma LeadsTrans(cfg: Config, heap: Heap, a: State, b: State, c: State)
    requires Leads(cfg, heap, a, b) && Leads(cfg, heap, b, c)
    ensures Leads(cfg, heap, a, c)
  {
    var p :| IsPath(cfg, heap, p) && p[0] == a && p[|p| - 1] == b;
    var q :| IsPath(cfg, heap, q) && q[0] == b && q[|q| - 1] == c;
    var r := p + q[1..];
    forall i | 0 <= i < |r| - 1
      ensures Moves(cfg, heap, r[i], r[i + 1])
    {
      if i >= |p| - 1 {
        assert r[i] == q[i - (|p| - 1)] && r[i + 1] == q[i - (|p| - 1) + 1];
      }
    }
    assert IsPath(cfg, heap, r);
  }

  lemma MoveKeepsStable(cfg: Config, heap: Heap, s: State, s': State)
    requires Stable(s, heap) && Moves(cfg, heap, s, s')
    ensures Stable(s', heap)
  {
    var step: Step :| !step.Begin? && Enabled(s, step, heap) && s' == Apply(cfg, s, step, heap);
    PostsKept(cfg, s, step, heap);
  }

  lemma {:induction false} PathReachable(cfg: Config, heap: Heap, path: seq<State>, i: nat)
    requires IsPath(cfg, heap, path) && i < |path|
    requires Reachable(cfg, path[0]) && Stable(path[0], heap)
    ensures Reachable(cfg, path[i]) && Stable(path[i], heap)
  {
    if i > 0 {
      PathReachable(cfg, heap, path, i - 1);
      assert Moves(cfg, heap, path[i - 1], path[i - 1 + 1]);
      var step: Step :| !step.Begin? && Enabled(path[i - 1], step, heap) &&
                       path[i] == Apply(cfg, path[i - 1], step, heap);
      StepReachable(cfg, path[i - 1], step, heap);
      MoveKeepsStable(cfg, heap, path[i - 1], path[i]);
    }
  }

  lemma LeadsReachable(cfg: Config, heap: Heap, s: State, s': State)
    requires Reachable(cfg, s) && Stable(s, heap) && Leads(cfg, heap, s, s')
    ensures Reachable(cfg, s') && Stable(s', heap)
  {
    var path :| IsPath(cfg, heap, path) && path[0] == s && path[|path| - 1] == s';
    PathReachable(cfg, heap, path, |path| - 1);
  }
}
