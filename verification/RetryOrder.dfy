/** When buffered data goes out in the order it was received. */
module RetryOrder {
  import opened Basics
  import opened Sums
  import opened BatchList
  import opened RetryMachine
  import opened RetryInvariants
  import opened RetryTheorems
  import opened RetryRaces

  ghost predicate KeysIn(s: State, keys: set<Key>) {
    forall p :: p in s.posts ==> s.posts[p].key in keys
  }

  /** Batches, and so what the backend gets, follow the order of acceptance. */
  ghost predicate InOrder(s: State) {
    forall a, b :: 0 <= a < b < |s.accepted| ==> s.accepted[a].batch <= s.accepted[b].batch
  }

  // ---------------------------------------------------------------- one key

  lemma OneKeyInOrder(cfg: Config, s: State, keys: set<Key>)
    requires Reachable(cfg, s) && KeysIn(s, keys) && |keys| <= 1
    ensures InOrder(s)
  {
    ReachableInv(cfg, s);
    forall a, b | 0 <= a < b < |s.accepted|
      ensures s.accepted[a].batch <= s.accepted[b].batch
    {
      AtMostOne(keys, s.accepted[a].key, s.accepted[b].key);
    }
  }

  lemma AtMostOne<T>(xs: set<T>, x: T, y: T)
    requires |xs| <= 1 && x in xs && y in xs
    ensures x == y
  {
    if x != y {
      assert |{x, y}| == 2 && {x, y} <= xs;
      SubsetSize({x, y}, xs);
    }
  }

  lemma SubsetSize<T>(a: set<T>, b: set<T>)
    requires a <= b
    ensures |a| <= |b|
  {
    assert b == a + (b - a);
  }

  // ---------------------------------------------------------------- too little room

  /** Two writes of `m` bytes do not fit a batch, or three do not fit the buffer. */
  predicate Tight(cfg: Config, m: nat) {
    cfg.maxBatch < 2 * m || cfg.maxSize < 3 * m
  }

  lemma TwoSizes(list: seq<Batch>, maxBatch: int)
    requires Packed(list, maxBatch) && |list| >= 2
    ensures Sum(Sizes(list)) >= list[0].size + list[1].size
  {
    assert Sizes(list) == [list[0].size] + Sizes(list[1..]);
    SizesAt(list[1..], maxBatch, 0);
  }

  /** With writes of at least `m` bytes, an accepted write then lands in the last batch. */
  lemma LandsLast(cfg: Config, s: State, p: nat, m: nat)
    requires Inv(cfg, s) && AtLeast(s, m) && Tight(cfg, m)
    requires p in s.posts && s.size + |s.posts[p].write.data| <= cfg.maxSize
    ensures Slot(s.list, s.posts[p].write, s.posts[p].key, cfg.maxBatch) + 1 >= |s.list|
  {
    var at := Slot(s.list, s.posts[p].write, s.posts[p].key, cfg.maxBatch);
    SlotFits(s.list, s.posts[p].write, s.posts[p].key, cfg.maxBatch);
    if at < |s.list| {
      BatchAtLeast(cfg, s, at, m);
    }
    if |s.list| >= 2 {
      BatchAtLeast(cfg, s, 0, m);
      BatchAtLeast(cfg, s, 1, m);
      TwoSizes(s.list, cfg.maxBatch);
    }
  }

  lemma NextInOrder(cfg: Config, s: State, s': State, m: nat)
    requires Inv(cfg, s) && AtLeast(s, m) && Tight(cfg, m) && Next(cfg, s, s') && InOrder(s)
    ensures InOrder(s')
  {
    var step, heap :| Stable(s, heap) && Enabled(s, step, heap) && s' == Apply(cfg, s, step, heap);
    if Accepts(cfg, s, step) {
      LandsLast(cfg, s, step.p, m);
      AppendInOrder(cfg, s, step.p);
    } else {
      QuietBatches(cfg, s, step, heap);
    }
  }

  lemma AppendInOrder(cfg: Config, s: State, p: nat)
    requires OrderInv(s.All(), s.accepted, s.openers) && InOrder(s)
    requires p in s.posts && s.size + |s.posts[p].write.data| <= cfg.maxSize
    requires Slot(s.list, s.posts[p].write, s.posts[p].key, cfg.maxBatch) + 1 >= |s.list|
    ensures InOrder(AddTo(cfg, s, p))
  {
  }

  lemma AtLeastBefore(cfg: Config, s: State, s': State, m: nat)
    requires Next(cfg, s, s') && AtLeast(s', m)
    ensures AtLeast(s, m)
  {
    var step, heap :| Stable(s, heap) && Enabled(s, step, heap) && s' == Apply(cfg, s, step, heap);
    PostsKept(cfg, s, step, heap);
    forall p | p in s.posts
      ensures |s.posts[p].write.data| >= m
    {
      assert p in s'.posts && s'.posts[p].write == s.posts[p].write;
    }
  }

  lemma {:induction false} RunInOrder(cfg: Config, run: seq<State>, i: nat, m: nat)
    requires IsRun(cfg, run) && i < |run| && AtLeast(run[i], m) && Tight(cfg, m)
    ensures InOrder(run[i])
  {
    if i > 0 {
      assert Next(cfg, run[i - 1], run[i - 1 + 1]);
      AtLeastBefore(cfg, run[i - 1], run[i], m);
      RunInOrder(cfg, run, i - 1, m);
      RunKeepsInv(cfg, run, i - 1);
      NextInOrder(cfg, run[i - 1], run[i], m);
    }
  }

  lemma TightInOrder(cfg: Config, s: State, m: nat)
    requires Reachable(cfg, s) && AtLeast(s, m) && Tight(cfg, m)
    ensures InOrder(s)
  {
    var run :| IsRun(cfg, run) && run[|run| - 1] == s;
    RunInOrder(cfg, run, |run| - 1, m);
  }

  /** Without a retry buffer nothing is accepted into one. */
  lemma UnbufferedAcceptsNothing(cfg: Config, s: State)
    requires Reachable(cfg, s) && !cfg.buffered
    ensures s.accepted == [] && s.All() == []
  {
    ReachableOrder(cfg, s);
    if s.accepted != [] {
      AcceptedMeansBuffered(cfg, s, 0);
    }
  }

  lemma ReachableOrder(cfg: Config, s: State)
    requires Reachable(cfg, s)
    ensures OrderInv(s.All(), s.accepted, s.openers) && AcceptedInv(s.accepted, s.posts)
  {
    ReachableInv(cfg, s);
  }

  lemma AcceptedMeansBuffered(cfg: Config, s: State, a: nat)
    requires Reachable(cfg, s) && a < |s.accepted|
    ensures cfg.buffered
  {
    ReachableOrder(cfg, s);
    ReachablePost(cfg, s, s.accepted[a].write.req);
  }

  // ---------------------------------------------------------------- overtaking

  /** Three writes of `m` bytes, the first and the third of one key: the third joins the
      batch of the first and leaves before the second. */
  lemma ThirdJoinsFirst(cfg: Config, k0: Key, k1: Key, m: nat) returns (s: State)
    requires cfg.buffered && !Tight(cfg, m) && k0 != k1
    ensures Reachable(cfg, s) && KeysIn(s, {k0, k1}) && AtLeast(s, m)
    ensures |s.accepted| == 3 && s.accepted[1].batch == 1 && s.accepted[2].batch == 0
  {
    var data: Bytes := seq(m, _ => 0);
    var w0, w1, w2 := Write(0, 0, data), Write(1, 1, data), Write(2, 2, data);
    var heap: Heap := map[0 := data, 1 := data, 2 := data];
    var s0 := ThreeBegun(cfg, w0, k0, w1, k1, w2, k0, heap);
    s := ThreeAdded(cfg, s0, w0, k0, w1, k1, w2, heap, m);
    LeadsReachable(cfg, heap, s0, s);
  }

  /** The three posts of that run. */
  function Three(w0: Write, k0: Key, w1: Write, k1: Key, w2: Write): map<nat, Post> {
    map[0 := Post(w0, k0, Started, false), 1 := Post(w1, k1, Started, false), 2 := Post(w2, k0, Started, false)]
  }

  lemma ThreeBegun(cfg: Config, w0: Write, k0: Key, w1: Write, k1: Key, w2: Write, k2: Key, heap: Heap)
    returns (s: State)
    requires k2 == k0
    requires w0.req == 0 && w0.buf in heap && heap[w0.buf] == w0.data
    requires w1.req == 1 && w1.buf in heap && heap[w1.buf] == w1.data
    requires w2.req == 2 && w2.buf in heap && heap[w2.buf] == w2.data
    ensures Reachable(cfg, s) && Stable(s, heap)
    ensures s == Begun(Three(w0, k0, w1, k1, w2))
  {
    TwoBegun(cfg, w0, k0, w1, k1, heap);
    s := Begun(map[0 := Post(w0, k0, Started, false), 1 := Post(w1, k1, Started, false)]);
    StepReachable(cfg, s, Begin(2, w2, k2), heap);
    s := Apply(cfg, s, Begin(2, w2, k2), heap);
    assert s.posts == Three(w0, k0, w1, k1, w2);
  }

  lemma ThreeAdded(cfg: Config, s0: State, w0: Write, k0: Key, w1: Write, k1: Key, w2: Write, heap: Heap, m: nat)
    returns (s: State)
    requires cfg.buffered && !Tight(cfg, m) && k0 != k1
    requires w0.req == 0 && |w0.data| == m && w0.buf in heap && heap[w0.buf] == w0.data
    requires w1.req == 1 && |w1.data| == m && |w2.data| == m
    requires s0 == Begun(Three(w0, k0, w1, k1, w2))
    ensures Leads(cfg, heap, s0, s) && KeysIn(s, {k0, k1}) && AtLeast(s, m)
    ensures s.accepted == [Entry(w0, k0, 0), Entry(w1, k1, 1), Entry(w2, k0, 0)]
  {
    var t := TwoAdded(cfg, s0, w0, k0, w1, k1, w2, heap, m);
    LeadsStep(cfg, heap, s0, t, Load(2));
    var t' := Apply(cfg, t, Load(2), heap);
    LeadsStep(cfg, heap, s0, t', Add(2));
    AddsThird(cfg, t', w0, k0, w1, k1, w2, m);
    s := AddTo(cfg, t', 2);
  }

  lemma AddsThird(cfg: Config, s: State, w0: Write, k0: Key, w1: Write, k1: Key, w2: Write, m: nat)
    requires !Tight(cfg, m) && |w0.data| == m && |w2.data| == m
    requires s.size == 2 * m && s.popped == [] && s.list == [NewBatch(w0, k0), NewBatch(w1, k1)]
    requires 2 in s.posts && s.posts[2] == Post(w2, k0, Adding(false), false)
    ensures AddTo(cfg, s, 2).accepted == s.accepted + [Entry(w2, k0, 0)]
    ensures AddTo(cfg, s, 2).posts.Keys == s.posts.Keys
    ensures forall p :: p in s.posts ==>
      AddTo(cfg, s, 2).posts[p].key == s.posts[p].key && AddTo(cfg, s, 2).posts[p].write == s.posts[p].write
  {
    assert !Passes(s.list[0], w2, k0, cfg.maxBatch);
    assert Slot(s.list, w2, k0, cfg.maxBatch) == 0;
  }

  /** The first two of three writes are added, each opening a batch. */
  lemma TwoAdded(cfg: Config, s0: State, w0: Write, k0: Key, w1: Write, k1: Key, w2: Write, heap: Heap, m: nat)
    returns (s: State)
    requires cfg.buffered && !Tight(cfg, m) && k0 != k1
    requires w0.req == 0 && |w0.data| == m && w0.buf in heap && heap[w0.buf] == w0.data
    requires w1.req == 1 && |w1.data| == m
    requires s0 == Begun(Three(w0, k0, w1, k1, w2))
    ensures Leads(cfg, heap, s0, s)
    ensures s.buffering && s.size == 2 * m && s.popped == []
    ensures s.list == [NewBatch(w0, k0), NewBatch(w1, k1)]
    ensures s.accepted == [Entry(w0, k0, 0), Entry(w1, k1, 1)]
    ensures s.posts.Keys == {0, 1, 2} && s.posts[0].key == k0 && s.posts[1].key == k1
    ensures s.posts[0].write == w0 && s.posts[1].write == w1
    ensures s.posts[2] == Post(w2, k0, Started, false)
  {
    s := OneAdded(cfg, s0.posts, w0, k0, heap);
    LeadsStep(cfg, heap, s0, s, Load(1));
    s := Apply(cfg, s, Load(1), heap);
    LeadsStep(cfg, heap, s0, s, Add(1));
    AddsSecond(cfg, s, w0, k0, w1, k1, m);
    s := Apply(cfg, s, Add(1), heap);
  }

  lemma AddsSecond(cfg: Config, s: State, w0: Write, k0: Key, w1: Write, k1: Key, m: nat)
    requires !Tight(cfg, m) && |w1.data| == m && k0 != k1
    requires s.size == m && s.popped == [] && s.list == [NewBatch(w0, k0)]
    requires 1 in s.posts && s.posts[1] == Post(w1, k1, Adding(false), false)
    ensures var s' := AddTo(cfg, s, 1);
            && s'.list == [NewBatch(w0, k0), NewBatch(w1, k1)] && s'.size == 2 * m && s'.popped == []
            && s'.accepted == s.accepted + [Entry(w1, k1, 1)] && s'.buffering == s.buffering
            && s'.posts == s.posts[1 := Post(w1, k1, Reading(After(0), 1), false)]
  {
    assert s.list[1..] == [];
    assert Insert([], w1, k1, cfg.maxBatch) == [NewBatch(w1, k1)];
    assert Slot(s.list, w1, k1, cfg.maxBatch) == 1 + Slot([], w1, k1, cfg.maxBatch);
  }

  // ---------------------------------------------------------------- the exact condition

  /** Over all runs with these keys and with writes of at least `m` bytes, buffered data
      goes out in the order it was received exactly when there is at most one key, no
      buffer, or no room for two such writes in a batch or three in the buffer. */
  lemma OrderExact(cfg: Config, keys: set<Key>, m: nat)
    ensures (forall s :: Reachable(cfg, s) && KeysIn(s, keys) && AtLeast(s, m) ==> InOrder(s))
            <==> |keys| <= 1 || !cfg.buffered || Tight(cfg, m)
  {
    if |keys| <= 1 || !cfg.buffered || Tight(cfg, m) {
      forall s | Reachable(cfg, s) && KeysIn(s, keys) && AtLeast(s, m)
        ensures InOrder(s)
      {
        if |keys| <= 1 {
          OneKeyInOrder(cfg, s, keys);
        } else if !cfg.buffered {
          UnbufferedAcceptsNothing(cfg, s);
        } else {
          TightInOrder(cfg, s, m);
        }
      }
    } else {
      var k0 :| k0 in keys;
      assert |keys - {k0}| >= 1;
      var k1 :| k1 in keys - {k0};
      var s := ThirdJoinsFirst(cfg, k0, k1, m);
      assert KeysIn(s, keys);
    }
  }
}
