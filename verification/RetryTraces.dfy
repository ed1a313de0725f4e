/** Runs together with their steps: what the log of POSTs records, and where the bytes in
    it come from. */
module RetryTraces {
  import opened Basics
  import opened BatchList
  import opened RetryMachine
  import opened RetryInvariants
  import opened RetryTheorems

  /** A step and what the pooled buffers hold while it is taken. */
  datatype Act = Act(step: Step, heap: Heap)

  ghost predicate Takes(cfg: Config, s: State, act: Act, s': State) {
    Stable(s, act.heap) && Enabled(s, act.step, act.heap) && s' == Apply(cfg, s, act.step, act.heap)
  }

  /** The i-th step leads from `run[i]` to `run[i + 1]`. */
  ghost predicate IsTrace(cfg: Config, run: seq<State>, acts: seq<Act>) {
    && |run| == |acts| + 1 && run[0] == Init()
    && forall i :: 0 <= i < |acts| ==> Takes(cfg, run[i], acts[i], run[i + 1])
  }

  lemma NextTakes(cfg: Config, s: State, s': State) returns (act: Act)
    requires Next(cfg, s, s')
    ensures Takes(cfg, s, act, s')
  {
    var step, heap :| Stable(s, heap) && Enabled(s, step, heap) && s' == Apply(cfg, s, step, heap);
    act := Act(step, heap);
  }

  lemma {:induction false} TraceOf(cfg: Config, run: seq<State>) returns (acts: seq<Act>)
    requires IsRun(cfg, run)
    ensures IsTrace(cfg, run, acts)
  {
    var n := |run| - 1;
    if n == 0 {
      acts := [];
    } else {
      assert Next(cfg, run[n - 1], run[n - 1 + 1]);
      var last := NextTakes(cfg, run[n - 1], run[n]);
      var init := TraceOf(cfg, run[..n]);
      acts := init + [last];
      forall i | 0 <= i < |acts|
        ensures Takes(cfg, run[i], acts[i], run[i + 1])
      {
        if i < n - 1 {
          assert Takes(cfg, run[..n][i], init[i], run[..n][i + 1]);
        }
      }
    }
  }

  lemma TraceIsRun(cfg: Config, run: seq<State>, acts: seq<Act>)
    requires IsTrace(cfg, run, acts)
    ensures IsRun(cfg, run)
  {
    forall i | 0 <= i < |run| - 1
      ensures Next(cfg, run[i], run[i + 1])
    {
      assert Takes(cfg, run[i], acts[i], run[i + 1]);
    }
  }

  // ---------------------------------------------------------------- the log

  /** The POST a step makes: a direct one carries the data of its post; one of `run` all
      writes of the batch in hand, in order. */
  function Sends(s: State, step: Step): seq<Posted> {
    match step
    case DirectPost(p, o) =>
      if p in s.posts then [Posted(s.posts[p].key, s.posts[p].write.data, o)] else []
    case Attempt(o) =>
      if s.popped == [] then []
      else [Posted(s.popped[|s.popped| - 1].key, Body(s.popped[|s.popped| - 1].bufs), o)]
    case _ => []
  }

  function AllSends(run: seq<State>, acts: seq<Act>): seq<Posted>
    requires |run| >= |acts|
  {
    if acts == [] then []
    else
      var n := |acts| - 1;
      AllSends(run, acts[..n]) + Sends(run[n], acts[n].step)
  }

  lemma StepLogs(cfg: Config, s: State, act: Act, s': State)
    requires RunInv(s) && Takes(cfg, s, act, s')
    ensures s'.log == s.log + Sends(s, act.step)
  {
    match act.step
    case DirectPost(p, o) => DirectLogs(cfg, s, act.heap, p, o);
    case Attempt(o) =>
    case _ => OtherLogs(cfg, s, act.step, act.heap);
  }

  lemma DirectLogs(cfg: Config, s: State, heap: Heap, p: nat, o: Outcome)
    requires Stable(s, heap) && Enabled(s, DirectPost(p, o), heap)
    ensures Apply(cfg, s, DirectPost(p, o), heap).log == s.log + Sends(s, DirectPost(p, o))
  {
  }

  lemma OtherLogs(cfg: Config, s: State, step: Step, heap: Heap)
    requires Enabled(s, step, heap) && !step.DirectPost? && !step.Attempt?
    ensures Apply(cfg, s, step, heap).log == s.log
  {
  }

  lemma ReachableLogs(cfg: Config, s: State, act: Act, s': State)
    requires Reachable(cfg, s) && Takes(cfg, s, act, s')
    ensures s'.log == s.log + Sends(s, act.step)
  {
    ReachableRun(cfg, s);
    StepLogs(cfg, s, act, s');
  }

  lemma LastSends(run: seq<State>, acts: seq<Act>, j: nat)
    requires 0 < j <= |acts| <= |run|
    ensures AllSends(run, acts[..j]) == AllSends(run, acts[..j - 1]) + Sends(run[j - 1], acts[j - 1].step)
  {
    assert acts[..j][..j - 1] == acts[..j - 1];
  }

  /** The log is exactly the POSTs of the steps taken, and the buffers they were copied
      from held what had been handed over. */
  lemma {:induction false} LogExact(cfg: Config, run: seq<State>, acts: seq<Act>, j: nat)
    requires IsTrace(cfg, run, acts) && j <= |acts|
    ensures run[j].log == AllSends(run, acts[..j])
  {
    if j > 0 {
      LogExact(cfg, run, acts, j - 1);
      TraceIsRun(cfg, run, acts);
      PrefixReachable(cfg, run, j - 1);
      assert Takes(cfg, run[j - 1], acts[j - 1], run[j - 1 + 1]);
      ReachableLogs(cfg, run[j - 1], acts[j - 1], run[j]);
      LastSends(run, acts, j);
    }
  }

  /** These are writes of posts with this key, each at most once. */
  predicate WritesOf(posts: map<nat, Post>, k: Key, ws: seq<Write>) {
    && ws != []
    && (forall w :: w in ws ==> w.req in posts && posts[w.req].write == w && posts[w.req].key == k)
    && (forall i, j :: 0 <= i < j < |ws| ==> ws[i].req != ws[j].req)
  }

  /** The body is nothing but writes of posts with the POST's own key. */
  ghost predicate FromPosts(posts: map<nat, Post>, e: Posted) {
    exists ws :: WritesOf(posts, e.key, ws) && e.body == Body(ws)
  }

  ghost predicate LogFromPosts(s: State) {
    forall e :: e in s.log ==> FromPosts(s.posts, e)
  }

  predicate Distinct(ws: seq<Write>) {
    forall i, j :: 0 <= i < j < |ws| ==> ws[i].req != ws[j].req
  }

  lemma {:induction false} KeyWritesFrom(accepted: seq<Entry>, k: Key)
    requires forall a, b :: 0 <= a < b < |accepted| ==> accepted[a].write.req != accepted[b].write.req
    ensures forall w :: w in KeyWrites(accepted, k) ==>
              exists a :: 0 <= a < |accepted| && accepted[a].write == w
    ensures Distinct(KeyWrites(accepted, k))
  {
    if accepted != [] {
      var n := |accepted| - 1;
      KeyWritesFrom(accepted[..n], k);
      forall w | w in KeyWrites(accepted[..n], k)
        ensures w.req != accepted[n].write.req
        ensures exists a :: 0 <= a < |accepted| && accepted[a].write == w
      {
        var a :| 0 <= a < n && accepted[..n][a].write == w;
        assert accepted[a].write == w;
      }
    }
  }

  /** No write is twice in a batch. */
  lemma BatchDistinct(s: State, i: nat)
    requires StreamInv(s) && AcceptedInv(s.accepted, s.posts) && i < |s.All()|
    ensures Distinct(s.All()[i].bufs)
  {
    var all, b := s.All(), s.All()[i];
    KeyWritesFrom(s.accepted, b.key);
    assert all == all[..i] + ([b] + all[i + 1..]);
    StreamConcat(all[..i], [b] + all[i + 1..], b.key);
    assert ([b] + all[i + 1..])[1..] == all[i + 1..];
    BlockDistinct(Stream(all[..i], b.key), b.bufs, Stream(all[i + 1..], b.key));
  }

  lemma BlockDistinct(a: seq<Write>, b: seq<Write>, c: seq<Write>)
    requires Distinct(a + (b + c))
    ensures Distinct(b)
  {
    var whole := a + (b + c);
    forall i, j | 0 <= i < j < |b|
      ensures b[i].req != b[j].req
    {
      assert whole[|a| + i] == b[i] && whole[|a| + j] == b[j];
    }
  }

  lemma InHandWrites(cfg: Config, s: State)
    requires Inv(cfg, s) && s.popped != []
    ensures var b := s.popped[|s.popped| - 1]; WritesOf(s.posts, b.key, b.bufs)
  {
    var i := |s.popped| - 1;
    assert s.All()[i] == s.popped[i];
    assert s.openers[i] < |s.accepted|;
    BatchDistinct(s, i);
  }

  lemma SendsFromPosts(cfg: Config, s: State, act: Act, s': State, e: Posted)
    requires Inv(cfg, s) && Takes(cfg, s, act, s') && e in Sends(s, act.step)
    ensures FromPosts(s.posts, e)
  {
    if act.step.Attempt? {
      InHandWrites(cfg, s);
      assert WritesOf(s.posts, e.key, s.popped[|s.popped| - 1].bufs);
    } else {
      var w := s.posts[act.step.p].write;
      assert PostOk(cfg, s, act.step.p);
      BodyAppend([], w);
      assert [] + [w] == [w];
      assert WritesOf(s.posts, e.key, [w]);
    }
  }

  lemma FromPostsMono(posts: map<nat, Post>, posts': map<nat, Post>, e: Posted)
    requires PostsGrow(posts, posts') && FromPosts(posts, e)
    ensures FromPosts(posts', e)
  {
    var ws :| WritesOf(posts, e.key, ws) && e.body == Body(ws);
    assert WritesOf(posts', e.key, ws);
  }

  lemma StepFromPosts(cfg: Config, s: State, act: Act, s': State)
    requires Inv(cfg, s) && Takes(cfg, s, act, s')
    requires LogFromPosts(s)
    ensures LogFromPosts(s')
  {
    StepLogs(cfg, s, act, s');
    PostsKept(cfg, s, act.step, act.heap);
    forall e | e in s'.log
      ensures FromPosts(s'.posts, e)
    {
      if e !in s.log {
        SendsFromPosts(cfg, s, act, s', e);
      }
      FromPostsMono(s.posts, s'.posts, e);
    }
  }

  lemma NextFromPosts(cfg: Config, s: State, s': State)
    requires Reachable(cfg, s) && Next(cfg, s, s') && LogFromPosts(s)
    ensures LogFromPosts(s')
  {
    ReachableInv(cfg, s);
    var act := NextTakes(cfg, s, s');
    StepFromPosts(cfg, s, act, s');
  }

  /** Whatever the backend ever sees, answered or not, consists of whole writes that were
      posted with that very query and auth, none of them twice. */
  lemma NothingInvented(cfg: Config, s: State, e: Posted)
    requires Reachable(cfg, s) && e in s.log
    ensures FromPosts(s.posts, e)
  {
    forall t, t' | Reachable(cfg, t) && Next(cfg, t, t') && LogFromPosts(t)
      ensures LogFromPosts(t')
    {
      NextFromPosts(cfg, t, t');
    }
    AlwaysHolds(cfg, t => LogFromPosts(t), s);
  }
}
