/** Runs that show where the guarantees of RetryTheorems end, and that the conditions
    stated there are exact. */
module RetryRaces {
  import opened Basics
  import opened BatchList
  import opened RetryMachine
  import opened RetryInvariants
  import opened RetryTheorems

  /** Nothing has happened except that some posts have begun. */
  function Begun(posts: map<nat, Post>): State {
    Init().(posts := posts)
  }

  predicate Ready(posts: map<nat, Post>, p: nat, w: Write, k: Key, heap: Heap) {
    p in posts && posts[p] == Post(w, k, Started, false) && w.req == p && w.buf in heap && heap[w.buf] == w.data
  }

  lemma OneBegun(cfg: Config, w: Write, k: Key, heap: Heap)
    requires w.req == 0 && w.buf in heap && heap[w.buf] == w.data
    ensures Reachable(cfg, Begun(map[0 := Post(w, k, Started, false)]))
    ensures Stable(Begun(map[0 := Post(w, k, Started, false)]), heap)
  {
    InitReachable(cfg);
    StepReachable(cfg, Init(), Begin(0, w, k), heap);
  }

  lemma TwoBegun(cfg: Config, w0: Write, k0: Key, w1: Write, k1: Key, heap: Heap)
    requires w0.req == 0 && w0.buf in heap && heap[w0.buf] == w0.data
    requires w1.req == 1 && w1.buf in heap && heap[w1.buf] == w1.data
    ensures var posts := map[0 := Post(w0, k0, Started, false), 1 := Post(w1, k1, Started, false)];
            Reachable(cfg, Begun(posts)) && Stable(Begun(posts), heap)
  {
    OneBegun(cfg, w0, k0, heap);
    var s := Begun(map[0 := Post(w0, k0, Started, false)]);
    StepReachable(cfg, s, Begin(1, w1, k1), heap);
    var posts := map[0 := Post(w0, k0, Started, false), 1 := Post(w1, k1, Started, false)];
    assert Apply(cfg, s, Begin(1, w1, k1), heap) == Begun(posts);
  }

  /** Post 0 finds its direct POST failing, stores the flag and is about to add. */
  lemma FailedFirst(cfg: Config, posts: map<nat, Post>, w: Write, k: Key, heap: Heap) returns (s: State)
    requires cfg.buffered && Ready(posts, 0, w, k, heap)
    ensures Leads(cfg, heap, Begun(posts), s)
    ensures s == State(true, [], 0, {}, Idle, posts[0 := Post(w, k, Adding(true), false)], [], [], [],
                       [Posted(k, w.data, Failed)], [])
  {
    LeadsSelf(cfg, heap, Begun(posts));
    s := Begun(posts);
    LeadsStep(cfg, heap, Begun(posts), s, Load(0));
    s := Apply(cfg, s, Load(0), heap);
    LeadsStep(cfg, heap, Begun(posts), s, DirectPost(0, Failed));
    s := Apply(cfg, s, DirectPost(0, Failed), heap);
    LeadsStep(cfg, heap, Begun(posts), s, Store(0));
    s := Apply(cfg, s, Store(0), heap);
    assert s.posts == posts[0 := Post(w, k, Adding(true), false)];
  }

  /** The write is added and opens the queue; `add` has yet to read `*cur`. */
  lemma OneAdded(cfg: Config, posts: map<nat, Post>, w: Write, k: Key, heap: Heap)
    returns (s: State)
    requires cfg.buffered && Ready(posts, 0, w, k, heap) && |w.data| <= cfg.maxSize
    ensures Leads(cfg, heap, Begun(posts), s)
    ensures s == State(true, [NewBatch(w, k)], |w.data|, {}, Idle, posts[0 := Post(w, k, Reading(AtHead, 0), false)],
                       [], [Entry(w, k, 0)], [0], [Posted(k, w.data, Failed)], [])
  {
    s := FailedFirst(cfg, posts, w, k, heap);
    LeadsStep(cfg, heap, Begun(posts), s, Add(0));
    s := Apply(cfg, s, Add(0), heap);
    assert s.list == [NewBatch(w, k)];
    assert s.posts == posts[0 := Post(w, k, Reading(AtHead, 0), false)];
  }

  // ---------------------------------------------------------------- sticking flag

  /** A single write that is empty, or larger than the whole buffer, leaves the flag set
      with nobody to clear it. */
  lemma FlagSticks(cfg: Config, w: Write, k: Key) returns (s: State)
    requires cfg.buffered && w.req == 0 && (|w.data| == 0 || |w.data| > cfg.maxSize)
    ensures Reachable(cfg, s) && !FlagHasWork(s)
    ensures forall p :: p in s.posts ==> s.posts[p].write == w
  {
    var heap := map[w.buf := w.data];
    var posts := map[0 := Post(w, k, Started, false)];
    OneBegun(cfg, w, k, heap);
    s := FailedFirst(cfg, posts, w, k, heap);
    LeadsReachable(cfg, heap, Begun(posts), s);
    StepReachable(cfg, s, Add(0), heap);
    s := Apply(cfg, s, Add(0), heap);
  }

  ghost predicate AllOfLength(s: State, n: nat) {
    forall p :: p in s.posts ==> |s.posts[p].write.data| == n
  }

  /** Over all runs whose writes have length n, the flag never sticks exactly when there
      is no buffer, or a write of that length is non-empty and fits it. */
  lemma FlagExact(cfg: Config, n: nat)
    ensures (forall s :: Reachable(cfg, s) && AllOfLength(s, n) ==> FlagHasWork(s))
            <==> !cfg.buffered || 1 <= n <= cfg.maxSize
  {
    if !cfg.buffered || 1 <= n <= cfg.maxSize {
      forall s | Reachable(cfg, s) && AllOfLength(s, n)
        ensures FlagHasWork(s)
      {
        if cfg.buffered {
          FlagNeverSticks(cfg, s);
        } else {
          UnbufferedFlag(cfg, s);
        }
      }
    } else {
      var s := FlagSticks(cfg, Write(0, 0, seq(n, _ => 0)), Key("", ""));
      assert AllOfLength(s, n);
    }
  }

  // ---------------------------------------------------------------- starving waiters

  /** A post waits, cannot be released, and `run` can at most go to sleep. */
  ghost predicate Starves(s: State, heap: Heap, p: nat) {
    && p in s.posts && s.posts[p].pc.Waiting? && !Enabled(s, Release(p), heap)
    && forall step: Step :: RunStep(step) && Enabled(s, step, heap) ==> step.Sleep?
  }

  /** An empty write in an empty queue, waiting for its batch. */
  lemma WaitsForNothing(cfg: Config, w: Write, k: Key, heap: Heap) returns (s: State)
    requires cfg.buffered && cfg.maxSize >= 0
    requires w.req == 0 && w.data == [] && w.buf in heap && heap[w.buf] == w.data
    ensures Leads(cfg, heap, Begun(map[0 := Post(w, k, Started, false)]), s)
    ensures s == State(true, [NewBatch(w, k)], 0, {}, Idle, map[0 := Post(w, k, Waiting(0, 0), false)], [],
                       [Entry(w, k, 0)], [0], [Posted(k, w.data, Failed)], [])
  {
    var s0 := Begun(map[0 := Post(w, k, Started, false)]);
    s := OneAdded(cfg, s0.posts, w, k, heap);
    LeadsStep(cfg, heap, s0, s, ReadBack(0));
    s := Apply(cfg, s, ReadBack(0), heap);
    assert s.posts == map[0 := Post(w, k, Waiting(0, 0), false)];
  }

  /** An empty write that is accepted waits, while the consumer sleeps with the write in
      the queue and no step of its own to take. */
  lemma EmptyWriteStarves(cfg: Config, k: Key) returns (s: State, heap: Heap)
    requires cfg.buffered && cfg.maxSize >= 0
    ensures Reachable(cfg, s) && Stable(s, heap) && AllOfLength(s, 0)
    ensures Starves(s, heap, 0) && s.list != [] && s.run.Asleep?
    ensures forall step :: Enabled(s, step, heap) ==> step.Begin?
  {
    var w := Write(0, 0, []);
    heap := map[0 := []];
    OneBegun(cfg, w, k, heap);
    s := WaitsForNothing(cfg, w, k, heap);
    LeadsReachable(cfg, heap, Begun(map[0 := Post(w, k, Started, false)]), s);
    StepReachable(cfg, s, Sleep, heap);
    s := Apply(cfg, s, Sleep, heap);
    OnlyBegin(s, heap, Post(w, k, Waiting(0, 0), false), NewBatch(w, k));
  }

  lemma OnlyBegin(s: State, heap: Heap, post: Post, b: Batch)
    requires s.posts == map[0 := post] && post.pc == Waiting(0, 0) && s.run == Asleep
    requires s.popped == [] && s.list == [b] && b.wg == 1
    ensures forall step :: Enabled(s, step, heap) ==> step.Begin?
  {
    assert s.All() == [b];
  }

  ghost predicate NobodyStarves(cfg: Config, n: nat) {
    forall s, heap, p :: Reachable(cfg, s) && Stable(s, heap) && AllOfLength(s, n) ==> !Starves(s, heap, p)
  }

  /** Over all runs whose writes have length n, a waiter can starve exactly when the
      buffer accepts empty writes and the writes are empty. */
  lemma StarvesExact(cfg: Config, n: nat)
    ensures NobodyStarves(cfg, n) <==> !(cfg.buffered && cfg.maxSize >= 0 && n == 0)
  {
    if cfg.buffered && cfg.maxSize >= 0 && n == 0 {
      var s, heap := EmptyWriteStarves(cfg, Key("", ""));
      assert Starves(s, heap, 0);
    } else {
      forall s, heap, p | Reachable(cfg, s) && Stable(s, heap) && AllOfLength(s, n)
        ensures !Starves(s, heap, p)
      {
        if p in s.posts && s.posts[p].pc.Waiting? && !Enabled(s, Release(p), heap) {
          ReachablePost(cfg, s, p);
          WithoutRoom(cfg, s);
          var step := NoStuckWaiter(cfg, s, heap, p, Failed);
        }
      }
    }
  }

  // ---------------------------------------------------------------- the late read of *cur

  /** The first write into an empty queue, with its batch popped before `add` returns. */
  lemma PoppedBeforeReturn(cfg: Config, posts: map<nat, Post>, w: Write, k: Key, heap: Heap) returns (s: State)
    requires cfg.buffered && Ready(posts, 0, w, k, heap) && 1 <= |w.data| <= cfg.maxSize
    ensures Leads(cfg, heap, Begun(posts), s)
    ensures s == State(true, [], 0, {}, Copying(0, []), posts[0 := Post(w, k, Reading(AtHead, 0), false)],
                       [NewBatch(w, k)], [Entry(w, k, 0)], [0], [Posted(k, w.data, Failed)], [])
  {
    s := OneAdded(cfg, posts, w, k, heap);
    LeadsStep(cfg, heap, Begun(posts), s, Pop);
    s := Apply(cfg, s, Pop, heap);
    assert s.posts == posts[0 := Post(w, k, Reading(AtHead, 0), false)];
  }

  /** Any write that opens the buffer of a failing backend can hit the nil pointer. */
  lemma CrashReachable(cfg: Config, w: Write, k: Key) returns (s: State)
    requires cfg.buffered && w.req == 0 && 1 <= |w.data| <= cfg.maxSize
    ensures Reachable(cfg, s) && 0 in s.posts && s.posts[0] == Post(w, k, Crashed(0), true)
  {
    var heap := map[w.buf := w.data];
    var posts := map[0 := Post(w, k, Started, false)];
    OneBegun(cfg, w, k, heap);
    s := PoppedBeforeReturn(cfg, posts, w, k, heap);
    LeadsReachable(cfg, heap, Begun(posts), s);
    StepReachable(cfg, s, ReadBack(0), heap);
    s := Apply(cfg, s, ReadBack(0), heap);
  }

  /** Over all runs, no post meets the nil batch exactly when the backend has no retry
      buffer with room for a byte. */
  lemma CrashExact(cfg: Config)
    ensures (forall s, p :: Reachable(cfg, s) && p in s.posts ==> !s.posts[p].pc.Crashed?)
            <==> !(cfg.buffered && cfg.maxSize >= 1)
  {
    if cfg.buffered && cfg.maxSize >= 1 {
      var s := CrashReachable(cfg, Write(0, 0, [0]), Key("", ""));
    } else {
      forall s, p | Reachable(cfg, s) && p in s.posts
        ensures !s.posts[p].pc.Crashed?
      {
        CrashOnlyIfOvertaken(cfg, s, p);
        WithoutRoom(cfg, s);
      }
    }
  }

  /** The first write's batch is in hand; a second write, of another key, opens the next
      batch; only then does `add` read `*cur` for the first write, and finds the second
      batch. */
  lemma WaitsForNextBatch(cfg: Config, w0: Write, k0: Key, w1: Write, k1: Key, heap: Heap) returns (s: State)
    requires cfg.buffered && w0.req == 0 && w1.req == 1
    requires 1 <= |w0.data| <= cfg.maxSize && 1 <= |w1.data| <= cfg.maxSize
    requires w0.buf in heap && heap[w0.buf] == w0.data && w1.buf in heap && heap[w1.buf] == w1.data
    ensures Leads(cfg, heap, Begun(map[0 := Post(w0, k0, Started, false), 1 := Post(w1, k1, Started, false)]), s)
    ensures s == State(true, [NewBatch(w1, k1)], |w1.data|, {}, Copying(0, []),
                       map[0 := Post(w0, k0, Waiting(1, 0), true), 1 := Post(w1, k1, Reading(AtHead, 1), false)],
                       [NewBatch(w0, k0)], [Entry(w0, k0, 0), Entry(w1, k1, 1)], [0, 1],
                       [Posted(k0, w0.data, Failed)], [])
  {
    var s0 := Begun(map[0 := Post(w0, k0, Started, false), 1 := Post(w1, k1, Started, false)]);
    s := SecondIsAdding(cfg, w0, k0, w1, k1, heap);
    LeadsStep(cfg, heap, s0, s, Add(1));
    s := Apply(cfg, s, Add(1), heap);
    assert s.list == [NewBatch(w1, k1)];
    LeadsStep(cfg, heap, s0, s, ReadBack(0));
    s := Apply(cfg, s, ReadBack(0), heap);
    assert s.posts ==
      map[0 := Post(w0, k0, Waiting(1, 0), true), 1 := Post(w1, k1, Reading(AtHead, 1), false)];
  }

  lemma SecondIsAdding(cfg: Config, w0: Write, k0: Key, w1: Write, k1: Key, heap: Heap) returns (s: State)
    requires cfg.buffered && w0.req == 0 && w1.req == 1
    requires 1 <= |w0.data| <= cfg.maxSize
    requires w0.buf in heap && heap[w0.buf] == w0.data && w1.buf in heap && heap[w1.buf] == w1.data
    ensures Leads(cfg, heap, Begun(map[0 := Post(w0, k0, Started, false), 1 := Post(w1, k1, Started, false)]), s)
    ensures s == State(true, [], 0, {}, Copying(0, []),
                       map[0 := Post(w0, k0, Reading(AtHead, 0), false), 1 := Post(w1, k1, Adding(false), false)],
                       [NewBatch(w0, k0)], [Entry(w0, k0, 0)], [0],
                       [Posted(k0, w0.data, Failed)], [])
  {
    var posts := map[0 := Post(w0, k0, Started, false), 1 := Post(w1, k1, Started, false)];
    s := PoppedBeforeReturn(cfg, posts, w0, k0, heap);
    LeadsStep(cfg, heap, Begun(posts), s, Load(1));
    s := Apply(cfg, s, Load(1), heap);
    assert s.posts ==
      map[0 := Post(w0, k0, Reading(AtHead, 0), false), 1 := Post(w1, k1, Adding(false), false)];
  }

  /** The run goroutine delivers the single-write batch in hand with this answer. */
  lemma DeliversInHand(cfg: Config, s: State, heap: Heap, w: Write, k: Key, r: Response) returns (s': State)
    requires s.run == Copying(0, []) && s.popped != [] && s.popped[|s.popped| - 1] == NewBatch(w, k)
    requires w.buf in heap && heap[w.buf] == w.data && Class(r) != 5
    ensures Leads(cfg, heap, s, s')
    ensures var posted := Posted(k, w.data, Answered(r));
            s' == s.(buffering := false, run := Idle,
                     popped := s.popped[|s.popped| - 1 := NewBatch(w, k).(wg := 0, resp := Some(r))],
                     log := s.log + [posted], consumed := s.consumed + [posted])
  {
    s' := SendsInHand(cfg, s, heap, w, k, r);
    LeadsStep(cfg, heap, s, s', Publish);
    s' := Apply(cfg, s', Publish, heap);
    LeadsStep(cfg, heap, s, s', ClearFlag);
    s' := Apply(cfg, s', ClearFlag, heap);
    LeadsStep(cfg, heap, s, s', Done);
    s' := Apply(cfg, s', Done, heap);
  }

  lemma SendsInHand(cfg: Config, s: State, heap: Heap, w: Write, k: Key, r: Response) returns (s': State)
    requires s.run == Copying(0, []) && s.popped != [] && s.popped[|s.popped| - 1] == NewBatch(w, k)
    requires w.buf in heap && heap[w.buf] == w.data && Class(r) != 5
    ensures Leads(cfg, heap, s, s')
    ensures var posted := Posted(k, w.data, Answered(r));
            s' == s.(run := Settled(r), log := s.log + [posted], consumed := s.consumed + [posted])
  {
    LeadsSelf(cfg, heap, s);
    CopyInHand(cfg, s, heap, w, k);
    LeadsStep(cfg, heap, s, s, Copy);
    s' := s.(run := Copying(1, w.data));
    LeadsStep(cfg, heap, s, s', EndCopy);
    s' := s.(run := Sending(w.data));
    LeadsStep(cfg, heap, s, s', Attempt(Answered(r)));
    s' := Apply(cfg, s', Attempt(Answered(r)), heap);
  }

  lemma CopyInHand(cfg: Config, s: State, heap: Heap, w: Write, k: Key)
    requires s.run == Copying(0, []) && s.popped != [] && s.popped[|s.popped| - 1] == NewBatch(w, k)
    requires w.buf in heap && heap[w.buf] == w.data
    ensures Enabled(s, Copy, heap) && Apply(cfg, s, Copy, heap) == s.(run := Copying(1, w.data))
  {
    assert [] + w.data == w.data;
  }

  /** An overtaken post reports success although the backend rejected its data: it
      returns the answer to the other write's POST. */
  lemma WrongAnswerPath(cfg: Config, w0: Write, k0: Key, w1: Write, k1: Key,
                        rejected: Response, ok: Response, heap: Heap)
    returns (s: State)
    requires cfg.buffered && w0.req == 0 && w1.req == 1
    requires w0.buf in heap && heap[w0.buf] == w0.data && w1.buf in heap && heap[w1.buf] == w1.data
    requires 1 <= |w0.data| <= cfg.maxSize && 1 <= |w1.data| <= cfg.maxSize
    requires Class(rejected) == 4 && Class(ok) == 2
    ensures Leads(cfg, heap, Begun(map[0 := Post(w0, k0, Started, false), 1 := Post(w1, k1, Started, false)]), s)
    ensures 0 in s.posts && s.posts[0] == Post(w0, k0, Returned(Got(ok), Some(Wait(1, 0))), true)
    ensures s.log == [Posted(k0, w0.data, Failed), Posted(k0, w0.data, Answered(rejected)),
                      Posted(k1, w1.data, Answered(ok))]
  {
    var s0 := Begun(map[0 := Post(w0, k0, Started, false), 1 := Post(w1, k1, Started, false)]);
    s := WaitsForNextBatch(cfg, w0, k0, w1, k1, heap);
    var s' := DeliversInHand(cfg, s, heap, w0, k0, rejected);
    LeadsTrans(cfg, heap, s0, s, s');
    LeadsStep(cfg, heap, s0, s', Pop);
    s := Apply(cfg, s', Pop, heap);
    assert s.popped[1] == NewBatch(w1, k1);
    s' := DeliversInHand(cfg, s, heap, w1, k1, ok);
    LeadsTrans(cfg, heap, s0, s, s');
    assert s'.All() == s'.popped;
    LeadsStep(cfg, heap, s0, s', Release(0));
    s := Apply(cfg, s', Release(0), heap);
  }

  lemma OvertakenReportsWrongAnswer(cfg: Config, w0: Write, k0: Key, w1: Write, k1: Key,
                                    rejected: Response, ok: Response)
    returns (s: State)
    requires cfg.buffered && w0.req == 0 && w1.req == 1 && w0.buf != w1.buf && k0 != k1
    requires 1 <= |w0.data| <= cfg.maxSize && 1 <= |w1.data| <= cfg.maxSize
    requires Class(rejected) == 4 && Class(ok) == 2
    ensures Reachable(cfg, s)
    ensures 0 in s.posts && s.posts[0] == Post(w0, k0, Returned(Got(ok), Some(Wait(1, 0))), true)
    ensures forall r :: Delivered(s.log, k0, w0.data, r) ==> r == rejected
  {
    var heap := map[w0.buf := w0.data, w1.buf := w1.data];
    TwoBegun(cfg, w0, k0, w1, k1, heap);
    s := WrongAnswerPath(cfg, w0, k0, w1, k1, rejected, ok, heap);
    LeadsReachable(cfg, heap, Begun(map[0 := Post(w0, k0, Started, false), 1 := Post(w1, k1, Started, false)]), s);
  }

  /** What `post` returns is the backend's answer to the post's own data. */
  ghost predicate AnswersOwnData(s: State) {
    forall p :: p in s.posts && s.posts[p].pc.Returned? && s.posts[p].pc.result.Got? ==>
      Delivered(s.log, s.posts[p].key, s.posts[p].write.data, s.posts[p].pc.result.resp)
  }

  /** Over all runs that holds exactly when the backend has no retry buffer with room for
      a byte. */
  lemma AnswerExact(cfg: Config)
    ensures (forall s :: Reachable(cfg, s) ==> AnswersOwnData(s)) <==> !(cfg.buffered && cfg.maxSize >= 1)
  {
    if cfg.buffered && cfg.maxSize >= 1 {
      var rejected, ok := Response(400, []), Response(204, []);
      var k0, k1 := Key("a", ""), Key("b", "");
      var s := OvertakenReportsWrongAnswer(cfg, Write(0, 0, [0]), k0, Write(1, 1, [0]), k1, rejected, ok);
      assert !Delivered(s.log, k0, [0], ok);
      assert !AnswersOwnData(s);
    } else {
      forall s, p | Reachable(cfg, s) && p in s.posts && s.posts[p].pc.Returned? && s.posts[p].pc.result.Got?
        ensures Delivered(s.log, s.posts[p].key, s.posts[p].write.data, s.posts[p].pc.result.resp)
      {
        ReachablePost(cfg, s, p);
        WithoutRoom(cfg, s);
        ReturnedMeansDelivered(cfg, s, p);
      }
    }
  }
}
