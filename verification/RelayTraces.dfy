/** Runs of the relay together with their steps: what becomes of the bytes, the query and
    the auth a request arrived with. */
module RelayTraces {
  import opened Basics
  import opened BatchList
  import opened FanOut
  import opened RelayMachine
  import opened RelayInvariants
  import opened RelayTheorems
  import RM = RetryMachine
  import RI = RetryInvariants
  import RT = RetryTraces
  import RS = RetryReasons

  ghost predicate Takes(cfgs: seq<RM.Config>, s: Relay, step: Step, s': Relay) {
    |s.backends| == |cfgs| && Enabled(s, step) && s' == Apply(cfgs, s, step)
  }

  /** The i-th step leads from `run[i]` to `run[i + 1]`. */
  ghost predicate IsTrace(cfgs: seq<RM.Config>, run: seq<Relay>, steps: seq<Step>) {
    && |run| == |steps| + 1 && run[0] == Init(|cfgs|)
    && forall i :: 0 <= i < |steps| ==> Takes(cfgs, run[i], steps[i], run[i + 1])
  }

  lemma NextTakes(cfgs: seq<RM.Config>, s: Relay, s': Relay) returns (step: Step)
    requires Next(cfgs, s, s')
    ensures Takes(cfgs, s, step, s')
  {
    step :| Enabled(s, step) && s' == Apply(cfgs, s, step);
  }

  /** Every run has its steps. */
  lemma {:induction false} TraceOf(cfgs: seq<RM.Config>, run: seq<Relay>) returns (steps: seq<Step>)
    requires IsRun(cfgs, run)
    ensures IsTrace(cfgs, run, steps)
  {
    var n := |run| - 1;
    if n == 0 {
      steps := [];
    } else {
      assert Next(cfgs, run[n - 1], run[n - 1 + 1]);
      var last := NextTakes(cfgs, run[n - 1], run[n]);
      var init := TraceOf(cfgs, run[..n]);
      steps := init + [last];
      forall i | 0 <= i < |steps|
        ensures Takes(cfgs, run[i], steps[i], run[i + 1])
      {
        if i < n - 1 {
          assert Takes(cfgs, run[..n][i], init[i], run[..n][i + 1]);
        }
      }
    }
  }

  lemma {:induction false} TraceReaches(cfgs: seq<RM.Config>, run: seq<Relay>, steps: seq<Step>, j: nat)
    requires IsTrace(cfgs, run, steps) && j <= |steps|
    ensures Reachable(cfgs, run[j])
  {
    if j == 0 {
      InitReachable(cfgs);
    } else {
      TraceReaches(cfgs, run, steps, j - 1);
      assert Takes(cfgs, run[j - 1], steps[j - 1], run[j - 1 + 1]);
      StepReachable(cfgs, run[j - 1], steps[j - 1]);
    }
  }

  // ---------------------------------------------------------------- arrivals

  predicate Same(q: Request, q': Request) {
    q'.key == q.key && q'.data == q.data && q'.buf == q.buf
  }

  lemma StepSame(cfgs: seq<RM.Config>, s: Relay, step: Step, s': Relay, r: nat)
    requires Takes(cfgs, s, step, s')
    ensures r in s.reqs ==> r in s'.reqs && Same(s.reqs[r], s'.reqs[r])
    ensures r in s'.reqs && r !in s.reqs ==> step.Arrive? && step.r == r
  {
  }

  /** A request arrived with this key and these bytes; its buffer came from the pool or
      was new. */
  ghost predicate Arrived(steps: seq<Step>, r: nat, k: Key, data: Bytes, buf: nat) {
    exists i :: 0 <= i < |steps| && steps[i] == Arrive(r, k, data, buf)
  }

  /** Whatever the pool had done with its buffer before, a request is known in every later
      state by exactly the query, auth and bytes it arrived with. */
  lemma {:induction false} ArrivalExact(cfgs: seq<RM.Config>, run: seq<Relay>, steps: seq<Step>, j: nat,
                                        r: nat, k: Key, data: Bytes, buf: nat)
    requires IsTrace(cfgs, run, steps) && j <= |steps|
    ensures Arrived(steps[..j], r, k, data, buf) <==>
            r in run[j].reqs && run[j].reqs[r].key == k && run[j].reqs[r].data == data && run[j].reqs[r].buf == buf
  {
    if j > 0 {
      ArrivalExact(cfgs, run, steps, j - 1, r, k, data, buf);
      var before, now := steps[..j - 1], steps[..j];
      assert now == before + [steps[j - 1]];
      assert Takes(cfgs, run[j - 1], steps[j - 1], run[j - 1 + 1]);
      StepSame(cfgs, run[j - 1], steps[j - 1], run[j], r);
      if Arrived(before, r, k, data, buf) {
        var i :| 0 <= i < |before| && before[i] == Arrive(r, k, data, buf);
        assert now[i] == Arrive(r, k, data, buf);
      } else if steps[j - 1] == Arrive(r, k, data, buf) {
        assert now[j - 1] == Arrive(r, k, data, buf);
      }
    }
  }

  lemma LastArrival(cfgs: seq<RM.Config>, run: seq<Relay>, steps: seq<Step>,
                    r: nat, k: Key, data: Bytes, buf: nat)
    requires IsTrace(cfgs, run, steps)
    ensures Arrived(steps, r, k, data, buf) <==>
            && r in run[|steps|].reqs && run[|steps|].reqs[r].key == k
            && run[|steps|].reqs[r].data == data && run[|steps|].reqs[r].buf == buf
  {
    ArrivalExact(cfgs, run, steps, |steps|, r, k, data, buf);
    assert steps[..|steps|] == steps;
  }

  // ---------------------------------------------------------------- end to end

  /** What a post carries to a backend is what its request arrived with. */
  lemma PostsWhatArrived(cfgs: seq<RM.Config>, run: seq<Relay>, steps: seq<Step>, r: nat, b: nat)
    requires IsTrace(cfgs, run, steps)
    requires b < |run[|steps|].backends| && r in run[|steps|].backends[b].posts
    ensures var post := run[|steps|].backends[b].posts[r];
            post.write.req == r && Arrived(steps, r, post.key, post.write.data, post.write.buf)
  {
    var s := run[|steps|];
    TraceReaches(cfgs, run, steps, |steps|);
    PostCarries(cfgs, s, r, b);
    ReachableInv(cfgs, s);
    assert LinkOk(s, r, b);
    LastArrival(cfgs, run, steps, r, s.reqs[r].key, s.reqs[r].data, s.reqs[r].buf);
  }

  /** Unless overtaken, every reply that came from a backend is that backend's answer to a
      POST with the query and auth the request arrived with, containing the bytes it
      arrived with as one block; a 204 stems from a 2xx. */
  lemma EndToEndDelivery(cfgs: seq<RM.Config>, run: seq<Relay>, steps: seq<Step>,
                         r: nat, k: Key, data: Bytes, buf: nat) returns (b: nat, resp: Response)
    requires IsTrace(cfgs, run, steps) && Arrived(steps, r, k, data, buf)
    requires NotOvertaken(run[|steps|], r) && r in run[|steps|].reqs
    requires run[|steps|].reqs[r].handler.Replied? && !run[|steps|].reqs[r].handler.answer.Unavailable?
    ensures b < |run[|steps|].backends| && RI.Delivered(run[|steps|].backends[b].log, k, data, resp)
    ensures run[|steps|].reqs[r].handler.answer == NoContent ==> Class(resp) == 2
    ensures run[|steps|].reqs[r].handler.answer.Relayed? ==> run[|steps|].reqs[r].handler.answer.resp == resp
  {
    TraceReaches(cfgs, run, steps, |steps|);
    LastArrival(cfgs, run, steps, r, k, data, buf);
    b, resp := ReplyDelivered(cfgs, run[|steps|], r);
  }

  /** Even when overtaken, a 204 means that some backend took all the bytes the request
      arrived with: it answered a POST containing them with something other than a 5xx. */
  lemma NoContentMeansTaken(cfgs: seq<RM.Config>, run: seq<Relay>, steps: seq<Step>,
                            r: nat, k: Key, data: Bytes, buf: nat) returns (b: nat, resp: Response)
    requires IsTrace(cfgs, run, steps) && Arrived(steps, r, k, data, buf)
    requires r in run[|steps|].reqs && run[|steps|].reqs[r].handler == Replied(NoContent)
    ensures b < |run[|steps|].backends| && RI.Delivered(run[|steps|].backends[b].log, k, data, resp)
    ensures Class(resp) != 5
  {
    TraceReaches(cfgs, run, steps, |steps|);
    LastArrival(cfgs, run, steps, r, k, data, buf);
    b, resp := NoContentTaken(cfgs, run[|steps|], r);
  }

  /** Every write arrived as part of some request with this key, and none is twice. */
  ghost predicate ArrivedWrites(steps: seq<Step>, k: Key, ws: seq<Write>) {
    && (forall w :: w in ws ==> Arrived(steps, w.req, k, w.data, w.buf))
    && (forall i, j :: 0 <= i < j < |ws| ==> ws[i].req != ws[j].req)
  }

  /** No backend ever sees anything, answered or not, but whole bodies of requests that
      arrived with the very query and auth it is POSTed with. */
  lemma BackendsSeeOnlyArrivals(cfgs: seq<RM.Config>, run: seq<Relay>, steps: seq<Step>, b: nat, e: Posted)
    returns (ws: seq<Write>)
    requires IsTrace(cfgs, run, steps) && b < |run[|steps|].backends| && e in run[|steps|].backends[b].log
    ensures ws != [] && ArrivedWrites(steps, e.key, ws) && e.body == Body(ws)
  {
    var s := run[|steps|];
    TraceReaches(cfgs, run, steps, |steps|);
    ReachableInv(cfgs, s);
    RT.NothingInvented(cfgs[b], s.backends[b], e);
    ws :| RT.WritesOf(s.backends[b].posts, e.key, ws) && e.body == Body(ws);
    forall w | w in ws
      ensures Arrived(steps, w.req, e.key, w.data, w.buf)
    {
      PostsWhatArrived(cfgs, run, steps, w.req, b);
    }
  }

  // ---------------------------------------------------------------- the relay's own 503

  /** Seen from a backend, a step of the relay is one of its own steps or none. */
  lemma BackendNext(cfgs: seq<RM.Config>, s: Relay, step: Step, s': Relay, b: nat)
    requires Inv(cfgs, s) && Takes(cfgs, s, step, s') && b < |cfgs|
    ensures |s'.backends| == |cfgs|
    ensures s'.backends[b] == s.backends[b] || RM.Next(cfgs[b], s.backends[b], s'.backends[b])
  {
    BuffersStable(cfgs, s, b);
    if (step.Inside? || step.Enter?) && step.b == b {
      var inner := if step.Inside? then step.step
                   else RM.Begin(step.r, Write(step.r, s.reqs[step.r].buf, s.reqs[step.r].data), s.reqs[step.r].key);
      assert RM.Enabled(s.backends[b], inner, s.heap);
      assert s'.backends[b] == RM.Apply(cfgs[b], s.backends[b], inner, s.heap);
    }
  }

  /** The buffer of backend `b` has no room for the data when the post is to add it. */
  ghost predicate Refuses(cfgs: seq<RM.Config>, s: Relay, s': Relay, r: nat, b: nat, data: Bytes) {
    && b < |cfgs| && b < |s.backends| && b < |s'.backends|
    && r in s.backends[b].posts && s.backends[b].posts[r].pc.Adding?
    && s.backends[b].size + |data| > cfgs[b].maxSize
    && RS.At(s'.backends[b], r, RM.Returned(RM.BufferFull, None))
  }

  ghost predicate Refused(cfgs: seq<RM.Config>, run: seq<Relay>, j: nat, r: nat, b: nat, data: Bytes)
    requires j < |run|
  {
    exists i :: 0 <= i < j && Refuses(cfgs, run[i], run[i + 1], r, b, data)
  }

  /** A post that has returned ErrBufferFull was refused, and one that was refused has. */
  lemma {:induction false} RefusedExact(cfgs: seq<RM.Config>, run: seq<Relay>, steps: seq<Step>, j: nat,
                                        r: nat, b: nat, data: Bytes)
    requires IsTrace(cfgs, run, steps) && j <= |steps| && b < |cfgs|
    requires r in run[j].reqs ==> run[j].reqs[r].data == data
    ensures |run[j].backends| == |cfgs|
    ensures RS.At(run[j].backends[b], r, RM.Returned(RM.BufferFull, None)) <==> Refused(cfgs, run, j, r, b, data)
  {
    if j > 0 {
      assert Takes(cfgs, run[j - 1], steps[j - 1], run[j - 1 + 1]);
      StepSame(cfgs, run[j - 1], steps[j - 1], run[j], r);
      RefusedExact(cfgs, run, steps, j - 1, r, b, data);
      TraceReaches(cfgs, run, steps, j - 1);
      RefusedStep(cfgs, run[j - 1], steps[j - 1], run[j - 1 + 1], r, b, data);
    }
  }

  lemma RefusedStep(cfgs: seq<RM.Config>, s: Relay, step: Step, s': Relay, r: nat, b: nat, data: Bytes)
    requires Reachable(cfgs, s) && Takes(cfgs, s, step, s') && b < |cfgs|
    requires r in s.reqs ==> s.reqs[r].data == data
    ensures |s'.backends| == |cfgs|
    ensures RS.At(s'.backends[b], r, RM.Returned(RM.BufferFull, None)) <==>
            RS.At(s.backends[b], r, RM.Returned(RM.BufferFull, None)) || Refuses(cfgs, s, s', r, b, data)
  {
    ReachableInv(cfgs, s);
    BackendNext(cfgs, s, step, s', b);
    var t, t' := s.backends[b], s'.backends[b];
    if t' != t {
      if r in t.posts {
        PostCarries(cfgs, s, r, b);
      }
      RS.FullExact(cfgs[b], t, t', r, |data|);
    }
  }

  /** With a retry buffer in front of every backend, the relay generates its own 503
      exactly when every buffer had no room for the bytes the request arrived with at the
      moment they were to be added. */
  lemma Buffered503MeansFull(cfgs: seq<RM.Config>, run: seq<Relay>, steps: seq<Step>,
                             r: nat, k: Key, data: Bytes, buf: nat)
    requires IsTrace(cfgs, run, steps) && AllBuffered(cfgs) && Arrived(steps, r, k, data, buf)
    requires r in run[|steps|].reqs && run[|steps|].reqs[r].handler.Replied?
    ensures run[|steps|].reqs[r].handler.answer == Unavailable <==>
            forall b :: 0 <= b < |cfgs| ==> Refused(cfgs, run, |steps|, r, b, data)
  {
    var s := run[|steps|];
    TraceReaches(cfgs, run, steps, |steps|);
    LastArrival(cfgs, run, steps, r, k, data, buf);
    UnavailableExact(cfgs, s, r);
    ReachableRequest(cfgs, s, r);
    forall b | 0 <= b < |cfgs|
      ensures && r in s.backends[b].posts && s.backends[b].posts[r].pc.Returned?
              && !s.backends[b].posts[r].pc.result.Got?
              <==> Refused(cfgs, run, |steps|, r, b, data)
    {
      RefusedExact(cfgs, run, steps, |steps|, r, b, data);
      if r in s.backends[b].posts && s.backends[b].posts[r].pc.Returned? && !s.backends[b].posts[r].pc.result.Got? {
        RefusedMeansFull(cfgs, s, r, b);
      }
    }
  }
}
