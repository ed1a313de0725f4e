/** What holds in every reachable state of the whole relay. */
module RelayTheorems {
  import opened Basics
  import opened BatchList
  import opened FanOut
  import opened RelayMachine
  import opened RelayInvariants
  import RM = RetryMachine
  import RI = RetryInvariants
  import RT = RetryTheorems

  // ---------------------------------------------------------------- the answer

  /** Whatever the order of arrival and whichever backends fail, the reply is the verdict
      on all responses of the request, including those that arrive after it. */
  lemma ReplyIsVerdict(cfgs: seq<RM.Config>, s: Relay, r: nat)
    requires Reachable(cfgs, s) && r in s.reqs && s.reqs[r].handler.Replied?
    ensures s.reqs[r].handler.answer == Verdict(Resps(s.reqs[r].arrivals))
  {
    ReachableRequest(cfgs, s, r);
  }

  /** The post of a request at a backend returned this response. */
  predicate PostReturned(s: Relay, r: nat, b: nat, resp: Response) {
    && b < |s.backends| && r in s.backends[b].posts
    && s.backends[b].posts[r].pc.Returned?
    && s.backends[b].posts[r].pc.result == RM.Got(resp)
  }

  /** A reply other than 503 goes back to what one backend's post returned. */
  lemma ReplyFromBackend(cfgs: seq<RM.Config>, s: Relay, r: nat) returns (b: nat, resp: Response)
    requires Reachable(cfgs, s) && r in s.reqs
    requires s.reqs[r].handler.Replied? && !s.reqs[r].handler.answer.Unavailable?
    ensures PostReturned(s, r, b, resp)
    ensures s.reqs[r].handler.answer == NoContent ==> Class(resp) == 2
    ensures s.reqs[r].handler.answer.Relayed? ==> s.reqs[r].handler.answer.resp == resp
  {
    ReplyIsVerdict(cfgs, s, r);
    ReachableInv(cfgs, s);
    var arrivals := s.reqs[r].arrivals;
    var rs := Resps(arrivals);
    RespsIndex(arrivals);
    var i := if FirstDecisive(rs) < |rs| then FirstDecisive(rs) else |rs| - 1;
    assert ArrivalOk(s, r, arrivals[i]);
    b, resp := arrivals[i].from, arrivals[i].resp;
  }

  // ---------------------------------------------------------------- end-to-end delivery

  /** Some backend answered `resp` to a POST with the request's own query and auth whose
      body contains the request's bytes as one block. */
  ghost predicate DeliveredTo(s: Relay, r: nat, b: nat, resp: Response)
    requires r in s.reqs
  {
    b < |s.backends| && RI.Delivered(s.backends[b].log, s.reqs[r].key, s.reqs[r].data, resp)
  }

  /** No retry buffer popped a batch of this request before `add` had returned it. */
  ghost predicate NotOvertaken(s: Relay, r: nat) {
    forall b :: 0 <= b < |s.backends| && r in s.backends[b].posts ==> !s.backends[b].posts[r].overtaken
  }

  /** What a backend's post carried is what the request wrote. */
  lemma PostCarries(cfgs: seq<RM.Config>, s: Relay, r: nat, b: nat)
    requires Reachable(cfgs, s) && b < |s.backends| && r in s.backends[b].posts
    ensures |s.backends| == |cfgs| && RM.Reachable(cfgs[b], s.backends[b])
    ensures r in s.reqs
    ensures s.backends[b].posts[r].write.data == s.reqs[r].data && s.backends[b].posts[r].key == s.reqs[r].key
  {
    ReachableInv(cfgs, s);
    assert LinkOk(s, r, b);
  }

  /** Unless overtaken, every reply that came from a backend is that backend's answer to
      a POST with all the bytes of this very request; a 204 stems from a 2xx. */
  lemma ReplyDelivered(cfgs: seq<RM.Config>, s: Relay, r: nat) returns (b: nat, resp: Response)
    requires Reachable(cfgs, s) && r in s.reqs && NotOvertaken(s, r)
    requires s.reqs[r].handler.Replied? && !s.reqs[r].handler.answer.Unavailable?
    ensures DeliveredTo(s, r, b, resp)
    ensures s.reqs[r].handler.answer == NoContent ==> Class(resp) == 2
    ensures s.reqs[r].handler.answer.Relayed? ==> s.reqs[r].handler.answer.resp == resp
  {
    b, resp := ReplyFromBackend(cfgs, s, r);
    PostCarries(cfgs, s, r, b);
    RT.ReturnedMeansDelivered(cfgs[b], s.backends[b], r);
  }

  /** Even when overtaken, a 204 means that some backend took all the bytes: it answered
      a POST containing them with something other than a 5xx. */
  lemma NoContentTaken(cfgs: seq<RM.Config>, s: Relay, r: nat) returns (b: nat, resp: Response)
    requires Reachable(cfgs, s) && r in s.reqs && s.reqs[r].handler == Replied(NoContent)
    ensures DeliveredTo(s, r, b, resp) && Class(resp) != 5
  {
    b, resp := ReplyFromBackend(cfgs, s, r);
    PostCarries(cfgs, s, r, b);
    if cfgs[b].buffered {
      resp := RT.ReturnedMeansTaken(cfgs[b], s.backends[b], r);
    } else {
      RI.ReachablePost(cfgs[b], s.backends[b], r);
      RT.ReturnedMeansDelivered(cfgs[b], s.backends[b], r);
    }
  }

  // ---------------------------------------------------------------- fan-out

  /** A goroutine about to send never blocks and never finds the channel closed, even
      after the handler has returned early. */
  lemma SendNeverBlocks(cfgs: seq<RM.Config>, s: Relay, r: nat, b: nat)
    requires Reachable(cfgs, s) && r in s.reqs && b < |s.reqs[r].gos| && s.reqs[r].gos[b].Sending?
    ensures Enabled(s, Send(r, b))
  {
    ReachableRequest(cfgs, s, r);
    var q := s.reqs[r];
    CountBounds(q.gos);
    assert Sent(q.gos[b]) == 0;
  }

  /** Once all goroutines are gone, the closer can close, and a handler still receiving
      from the closed channel can take its next step. */
  lemma RequestCompletes(cfgs: seq<RM.Config>, s: Relay, r: nat)
    requires Reachable(cfgs, s) && r in s.reqs
    requires forall b :: 0 <= b < |s.reqs[r].gos| ==> s.reqs[r].gos[b].Gone?
    ensures s.reqs[r].closer.AwaitingAll? ==> Enabled(s, Close(r))
    ensures s.reqs[r].closed && s.reqs[r].handler.Receiving? ==> Enabled(s, Receive(r)) || Enabled(s, Finish(r))
    ensures s.reqs[r].handler.Spawning? ==> Enabled(s, SpawnCloser(r))
  {
    ReachableRequest(cfgs, s, r);
    var q := s.reqs[r];
    CountBounds(q.gos);
    var next := if q.handler.Spawning? && q.handler.next < |q.gos| then q.gos[q.handler.next] else Gone(false);
    assert next.Gone?;
  }

  /** Data of all requests is non-empty, as far as requests have arrived. */
  ghost predicate NonEmptyData(s: Relay) {
    forall r :: r in s.reqs ==> |s.reqs[r].data| >= 1
  }

  ghost predicate NotCrashed(s: Relay, r: nat) {
    forall b :: 0 <= b < |s.backends| && r in s.backends[b].posts ==> !s.backends[b].posts[r].pc.Crashed?
  }

  /** The request's post waits at this backend and cannot be released yet. */
  predicate WaitsAt(s: Relay, r: nat, b: nat) {
    && b < |s.backends| && r in s.backends[b].posts
    && s.backends[b].posts[r].pc.Waiting?
    && !RM.Enabled(s.backends[b], RM.Release(r), s.heap)
  }

  /** A step of one of the request's own threads, or of the `run` goroutine of a backend
      it waits for, other than going to sleep. */
  predicate Serves(s: Relay, step: Step, r: nat) {
    match step
    case Enter(q, _) => q == r
    case Inside(b, inner) =>
      if RM.RunStep(inner) then !inner.Sleep? && WaitsAt(s, r, b) else !inner.Begin? && inner.p == r
    case Arrive(_, _, _, _) => false
    case Scribble(_, _) => false
    case _ => step.r == r
  }

  /** If the step is a POST, it has this outcome. */
  predicate Comes(step: Step, o: Outcome) {
    step.Inside? ==>
      && (step.step.DirectPost? ==> step.step.outcome == o)
      && (step.step.Attempt? ==> step.step.outcome == o)
  }

  /** A waiting post can be released, or the `run` goroutine it waits for can move. */
  lemma WaitingMoves(cfgs: seq<RM.Config>, s: Relay, r: nat, b: nat, o: Outcome) returns (step: Step)
    requires Reachable(cfgs, s) && b < |s.backends| && r in s.backends[b].posts
    requires NonEmptyData(s) && s.backends[b].posts[r].pc.Waiting?
    ensures Enabled(s, step) && Serves(s, step, r) && Comes(step, o)
  {
    PostCarries(cfgs, s, r, b);
    if RM.Enabled(s.backends[b], RM.Release(r), s.heap) {
      step := Inside(b, RM.Release(r));
    } else {
      BackendStable(cfgs, s, b);
      BackendNonEmpty(cfgs, s, b);
      var inner := RT.NoStuckWaiter(cfgs[b], s.backends[b], s.heap, r, o);
      step := Inside(b, inner);
    }
  }

  /** A post under way at a backend always has a step to take, or the `run` goroutine it
      waits for has. */
  lemma PostMoves(cfgs: seq<RM.Config>, s: Relay, r: nat, b: nat, o: Outcome) returns (step: Step)
    requires Reachable(cfgs, s) && b < |s.backends| && r in s.backends[b].posts
    requires NonEmptyData(s)
    requires !s.backends[b].posts[r].pc.Crashed? && !s.backends[b].posts[r].pc.Returned?
    ensures Enabled(s, step) && Serves(s, step, r) && Comes(step, o)
  {
    if s.backends[b].posts[r].pc.Waiting? {
      step := WaitingMoves(cfgs, s, r, b, o);
    } else {
      var inner := OwnPostStep(cfgs, s, r, b, o);
      step := Inside(b, inner);
    }
  }

  lemma OwnPostStep(cfgs: seq<RM.Config>, s: Relay, r: nat, b: nat, o: Outcome) returns (inner: RM.Step)
    requires Reachable(cfgs, s) && b < |s.backends| && r in s.backends[b].posts
    requires var pc := s.backends[b].posts[r].pc; !pc.Crashed? && !pc.Returned? && !pc.Waiting?
    ensures RM.Enabled(s.backends[b], inner, s.heap) && !RM.RunStep(inner) && !inner.Begin? && inner.p == r
    ensures Comes(Inside(b, inner), o)
  {
    PostCarries(cfgs, s, r, b);
    BackendStable(cfgs, s, b);
    RI.ReachablePost(cfgs[b], s.backends[b], r);
    match s.backends[b].posts[r].pc
    case Started => inner := RM.Load(r);
    case Posting => inner := RM.DirectPost(r, o);
    case Refused => inner := RM.Store(r);
    case Adding(_) => inner := RM.Add(r);
    case Reading(_, _) => inner := RM.ReadBack(r);
  }

  lemma BackendStable(cfgs: seq<RM.Config>, s: Relay, b: nat)
    requires Reachable(cfgs, s) && b < |s.backends|
    ensures RM.Stable(s.backends[b], s.heap)
  {
    ReachableInv(cfgs, s);
    BuffersStable(cfgs, s, b);
  }

  lemma BackendNonEmpty(cfgs: seq<RM.Config>, s: Relay, b: nat)
    requires Reachable(cfgs, s) && b < |s.backends| && NonEmptyData(s)
    ensures RT.NonEmpty(s.backends[b])
  {
    forall p | p in s.backends[b].posts
      ensures |s.backends[b].posts[p].write.data| >= 1
    {
      PostCarries(cfgs, s, p, b);
    }
  }

  /** A goroutine that is not gone has a step to take, or the backend it waits for has. */
  lemma GoMoves(cfgs: seq<RM.Config>, s: Relay, r: nat, b: nat, o: Outcome) returns (step: Step)
    requires Reachable(cfgs, s) && r in s.reqs && NonEmptyData(s) && NotCrashed(s, r)
    requires b < |s.reqs[r].gos| && !s.reqs[r].gos[b].NotSpawned? && !s.reqs[r].gos[b].Gone?
    ensures Enabled(s, step) && Serves(s, step, r) && Comes(step, o)
  {
    ReachableRequest(cfgs, s, r);
    ReachableLink(cfgs, s, r, b);
    match s.reqs[r].gos[b]
    case Spawned => step := Enter(r, b);
    case InPost =>
      if s.backends[b].posts[r].pc.Returned? {
        step := Leave(r, b);
      } else {
        step := PostMoves(cfgs, s, r, b, o);
      }
    case Sending(_) =>
      SendNeverBlocks(cfgs, s, r, b);
      step := Send(r, b);
    case Leaving(_) => step := Exit(r, b);
  }

  /** A request that has not recycled its buffer is never stuck: with non-empty data and
      no crashed post of its own, one of its threads can move, or the `run` goroutine of a
      backend it waits for, and the next POST may have any outcome. */
  lemma RequestNeverStuck(cfgs: seq<RM.Config>, s: Relay, r: nat, o: Outcome) returns (step: Step)
    requires Reachable(cfgs, s) && r in s.reqs && NonEmptyData(s) && NotCrashed(s, r)
    requires !s.reqs[r].closer.Ended? || !s.reqs[r].handler.Replied?
    ensures Enabled(s, step) && Serves(s, step, r) && Comes(step, o)
  {
    ReachableRequest(cfgs, s, r);
    var q := s.reqs[r];
    CountBounds(q.gos);
    if q.handler.Spawning? {
      step := if q.handler.next < |q.gos| then Spawn(r) else SpawnCloser(r);
    } else if b :| 0 <= b < |q.gos| && !q.gos[b].Gone? {
      step := GoMoves(cfgs, s, r, b, o);
    } else if q.closer.AwaitingAll? {
      step := Close(r);
    } else if q.closer.ChannelClosed? {
      step := Recycle(r);
    } else {
      step := if q.received < |q.arrivals| then Receive(r) else Finish(r);
    }
  }

  /** The steps a request has left of its own. */
  function OwnSteps(q: Request): nat {
    SumRanks(q.gos) +
    (if q.received < |q.gos| then |q.gos| - q.received else 0) +
    (match q.closer
     case NotStarted => 3
     case AwaitingAll => 2
     case ChannelClosed => 1
     case Ended => 0) +
    (match q.handler
     case Spawning(_) => 2
     case Receiving(_) => 1
     case Replied(_) => 0)
  }

  /** Every step of the request's own threads outside the backends uses one up, and no
      step of others adds any: a request has at most `OwnSteps` of them. */
  lemma OwnStepsDecrease(cfgs: seq<RM.Config>, s: Relay, step: Step, r: nat)
    requires Reachable(cfgs, s) && |s.backends| == |cfgs| && Enabled(s, step) && r in s.reqs
    ensures var s' := Apply(cfgs, s, step);
            && r in s'.reqs
            && OwnSteps(s'.reqs[r]) <= OwnSteps(s.reqs[r])
            && ((RequestStep(step) || step.Enter?) && step.r == r ==> OwnSteps(s'.reqs[r]) < OwnSteps(s.reqs[r]))
  {
    ReachableRequest(cfgs, s, r);
    if step.Enter? && step.r == r {
      RanksUpdate(s.reqs[r].gos, step.b, InPost);
    } else if RequestStep(step) && step.r == r {
      OwnStepLowers(s, step, |cfgs|);
    }
  }

  lemma OwnStepLowers(s: Relay, step: Step, n: nat)
    requires RequestStep(step) && Enabled(s, step) && GosInv(s.reqs[step.r], n)
    ensures OwnSteps(ApplyRequest(s, step, s.reqs[step.r])) < OwnSteps(s.reqs[step.r])
  {
    if GoStep(step) {
      GoStepLowers(s, step, n);
    } else {
      CountBounds(s.reqs[step.r].gos);
    }
  }

  lemma GoStepLowers(s: Relay, step: Step, n: nat)
    requires GoStep(step) && Enabled(s, step) && GosInv(s.reqs[step.r], n)
    ensures OwnSteps(ApplyRequest(s, step, s.reqs[step.r])) < OwnSteps(s.reqs[step.r])
  {
    var q := s.reqs[step.r];
    var b := GoOf(s, step);
    RanksUpdate(q.gos, b, ApplyRequest(s, step, q).gos[b]);
  }

  /** Once all goroutines are gone, the request reaches its end by its own steps alone:
      the handler replies and the buffer is recycled. */
  lemma RequestRunsToEnd(cfgs: seq<RM.Config>, s: Relay, r: nat) returns (s': Relay)
    requires Reachable(cfgs, s) && r in s.reqs
    requires forall b :: 0 <= b < |s.reqs[r].gos| ==> s.reqs[r].gos[b].Gone?
    ensures Reachable(cfgs, s') && s'.backends == s.backends
    ensures r in s'.reqs && s'.reqs[r].closer.Ended? && s'.reqs[r].handler.Replied?
    ensures s'.reqs[r].arrivals == s.reqs[r].arrivals
    ensures forall q :: q in s.reqs && q != r ==> q in s'.reqs && s'.reqs[q] == s.reqs[q]
    ensures s'.reqs[r].data == s.reqs[r].data && s'.reqs[r].buf == s.reqs[r].buf
    ensures s'.reqs.Keys == s.reqs.Keys && s'.heap == s.heap
    ensures s.free <= s'.free && (!s.reqs[r].closer.Ended? ==> s.reqs[r].buf in s'.free)
    decreases OwnSteps(s.reqs[r])
  {
    if s.reqs[r].closer.Ended? && s.reqs[r].handler.Replied? {
      s' := s;
    } else {
      ReachableRequest(cfgs, s, r);
      var step := EndStep(cfgs, s, r);
      OwnStepsDecrease(cfgs, s, step, r);
      StepReachable(cfgs, s, step);
      s' := RequestRunsToEnd(cfgs, Apply(cfgs, s, step), r);
    }
  }

  /** The step next in line, and it leaves the goroutines and all else alone. */
  lemma EndStep(cfgs: seq<RM.Config>, s: Relay, r: nat) returns (step: Step)
    requires Reachable(cfgs, s) && r in s.reqs && |s.backends| == |cfgs|
    requires forall b :: 0 <= b < |s.reqs[r].gos| ==> s.reqs[r].gos[b].Gone?
    requires !s.reqs[r].closer.Ended? || !s.reqs[r].handler.Replied?
    ensures RequestStep(step) && step.r == r && Enabled(s, step)
    ensures var s' := Apply(cfgs, s, step);
            && s'.backends == s.backends && s'.reqs == s.reqs[r := s'.reqs[r]]
            && s'.reqs[r].gos == s.reqs[r].gos && s'.reqs[r].arrivals == s.reqs[r].arrivals
            && s'.reqs[r].data == s.reqs[r].data && s'.reqs[r].buf == s.reqs[r].buf
            && s'.heap == s.heap && s.free <= s'.free
            && (s'.reqs[r].closer.Ended? ==> s.reqs[r].closer.Ended? || s.reqs[r].buf in s'.free)
  {
    RequestCompletes(cfgs, s, r);
    ReachableRequest(cfgs, s, r);
    var q := s.reqs[r];
    if q.handler.Spawning? {
      step := SpawnCloser(r);
    } else if q.closer.AwaitingAll? {
      step := Close(r);
    } else if q.closer.ChannelClosed? {
      step := Recycle(r);
    } else {
      step := if q.received < |q.arrivals| then Receive(r) else Finish(r);
    }
  }

  function Rank(g: GoPc): nat {
    match g
    case NotSpawned => 5
    case Spawned => 4
    case InPost => 3
    case Sending(_) => 2
    case Leaving(_) => 1
    case Gone(_) => 0
  }

  function SumRanks(gos: seq<GoPc>): nat {
    if gos == [] then 0 else Rank(gos[0]) + SumRanks(gos[1..])
  }

  lemma {:induction false} RanksUpdate(gos: seq<GoPc>, b: nat, g: GoPc)
    requires b < |gos|
    ensures SumRanks(gos[b := g]) == SumRanks(gos) - Rank(gos[b]) + Rank(g)
  {
    var gos' := gos[b := g];
    if b == 0 {
      assert gos'[1..] == gos[1..];
    } else {
      RanksUpdate(gos[1..], b - 1, g);
      assert gos'[1..] == gos[1..][b - 1 := g];
    }
  }

  /** The relay generates its own 503 exactly when no backend gave a response. */
  lemma UnavailableExact(cfgs: seq<RM.Config>, s: Relay, r: nat)
    requires Reachable(cfgs, s) && r in s.reqs && s.reqs[r].handler.Replied?
    ensures s.reqs[r].handler.answer == Unavailable <==>
            forall b :: 0 <= b < |s.backends| ==>
              r in s.backends[b].posts && s.backends[b].posts[r].pc.Returned? && !s.backends[b].posts[r].pc.result.Got?
  {
    ReplyIsVerdict(cfgs, s, r);
    ReachableRequest(cfgs, s, r);
    var q := s.reqs[r];
    RespsIndex(q.arrivals);
    CountBounds(q.gos);
    forall b | 0 <= b < |s.backends|
      ensures q.gos[b].Gone? ==> r in s.backends[b].posts && s.backends[b].posts[r].pc.Returned?
      ensures Sent(q.gos[b]) == 1 ==> r in s.backends[b].posts && s.backends[b].posts[r].pc.Returned?
                                      && s.backends[b].posts[r].pc.result.Got?
      ensures q.gos[b].Gone? && Sent(q.gos[b]) == 0 ==> !s.backends[b].posts[r].pc.result.Got?
    {
      ReachableLink(cfgs, s, r, b);
    }
  }

  /** A 503 is never generated while some response could still have been used. */
  lemma UnavailableMeansClosed(cfgs: seq<RM.Config>, s: Relay, r: nat)
    requires Reachable(cfgs, s) && r in s.reqs && s.reqs[r].handler == Replied(Unavailable)
    ensures s.reqs[r].closed && s.reqs[r].arrivals == []
  {
    ReachableRequest(cfgs, s, r);
    RespsIndex(s.reqs[r].arrivals);
  }

  // ---------------------------------------------------------------- buffered backends

  ghost predicate AllBuffered(cfgs: seq<RM.Config>) {
    forall b :: 0 <= b < |cfgs| ==> cfgs[b].buffered
  }

  /** With a retry buffer in front of every backend, clients see no backend 5xx. */
  lemma BufferedNeverRelays5xx(cfgs: seq<RM.Config>, s: Relay, r: nat)
    requires Reachable(cfgs, s) && AllBuffered(cfgs) && r in s.reqs
    requires s.reqs[r].handler.Replied? && s.reqs[r].handler.answer.Relayed?
    ensures Class(s.reqs[r].handler.answer.resp) != 5
  {
    var b, resp := ReplyFromBackend(cfgs, s, r);
    PostCarries(cfgs, s, r, b);
    RT.BufferedHidesFailures(cfgs[b], s.backends[b], r);
  }

  lemma RefusedMeansFull(cfgs: seq<RM.Config>, s: Relay, r: nat, b: nat)
    requires Reachable(cfgs, s) && AllBuffered(cfgs) && b < |s.backends| && r in s.backends[b].posts
    requires s.backends[b].posts[r].pc.Returned? && !s.backends[b].posts[r].pc.result.Got?
    ensures s.backends[b].posts[r].pc == RM.Returned(RM.BufferFull, None)
  {
    PostCarries(cfgs, s, r, b);
    RI.ReachablePost(cfgs[b], s.backends[b], r);
  }

  // ---------------------------------------------------------------- buffer lifetime

  /** The output buffer goes back to the pool at most once, and has gone back exactly
      when the closer has ended. */
  lemma RecycledOnce(cfgs: seq<RM.Config>, s: Relay, r: nat)
    requires Reachable(cfgs, s) && r in s.reqs
    ensures s.reqs[r].puts == (if s.reqs[r].closer.Ended? then 1 else 0)
    ensures s.reqs[r].closer.Ended? ==> !Enabled(s, Recycle(r)) && !Enabled(s, Close(r))
  {
    ReachableRequest(cfgs, s, r);
  }

  /** The write is in a batch that is queued or in hand at the backend. */
  predicate Refers(s: Relay, b: nat, i: int, w: Write) {
    && b < |s.backends|
    && s.backends[b].Released() <= i && 0 <= i < |s.backends[b].All()|
    && w in s.backends[b].All()[i].bufs
  }

  /** Its post has not returned. */
  lemma RefersUnfinished(cfgs: seq<RM.Config>, s: Relay, b: nat, i: int, w: Write)
    requires Reachable(cfgs, s) && Refers(s, b, i, w)
    ensures w.req in s.backends[b].posts && s.backends[b].posts[w.req].write == w
    ensures !s.backends[b].posts[w.req].pc.Returned?
  {
    ReachableInv(cfgs, s);
    var t := s.backends[b];
    RI.ReachableInv(cfgs[b], t);
    assert w.req in t.posts;
    RI.ReachablePost(cfgs[b], t, w.req);
  }

  /** Every write that is queued or in hand at a backend still has its bytes: its buffer
      is not in the pool and holds what the request put there. */
  lemma QueuedBuffersAlive(cfgs: seq<RM.Config>, s: Relay, b: nat, i: int, w: Write)
    requires Reachable(cfgs, s) && Refers(s, b, i, w)
    ensures w.req in s.reqs && !s.reqs[w.req].closer.Ended? && !s.reqs[w.req].closed
    ensures w.buf == s.reqs[w.req].buf && w.buf !in s.free && w.buf in s.heap && s.heap[w.buf] == w.data
  {
    RefersUnfinished(cfgs, s, b, i, w);
    PostCarries(cfgs, s, w.req, b);
    ReachableLink(cfgs, s, w.req, b);
    ReachableRequest(cfgs, s, w.req);
    ReachablePool(cfgs, s);
  }

  lemma ReachablePool(cfgs: seq<RM.Config>, s: Relay)
    requires Reachable(cfgs, s)
    ensures PoolInv(s)
  {
    ReachableInv(cfgs, s);
  }

  /** When `outBuf` is recycled, whether or not the handler has long returned, no post of
      the request is unfinished, no batch that is queued or in hand refers to the
      buffer, and it is not in the pool already. */
  lemma RecycleIsSafe(cfgs: seq<RM.Config>, s: Relay, r: nat)
    requires Reachable(cfgs, s) && Enabled(s, Recycle(r))
    ensures s.reqs[r].puts == 0 && s.reqs[r].buf !in s.free
    ensures forall b :: 0 <= b < |s.backends| ==>
      r in s.backends[b].posts && s.backends[b].posts[r].pc.Returned?
    ensures forall b, i, w :: Refers(s, b, i, w) ==> w.buf != s.reqs[r].buf
  {
    ReachableRequest(cfgs, s, r);
    ReachablePool(cfgs, s);
    forall b | 0 <= b < |s.backends|
      ensures r in s.backends[b].posts && s.backends[b].posts[r].pc.Returned?
    {
      ReachableLink(cfgs, s, r, b);
    }
    forall b, i, w | Refers(s, b, i, w)
      ensures w.buf != s.reqs[r].buf
    {
      QueuedBuffersAlive(cfgs, s, b, i, w);
    }
  }

  /** The buffer is that of a request that has not recycled it. */
  predicate Uses(s: Relay, r: nat, buf: nat) {
    r in s.reqs && !s.reqs[r].closer.Ended? && s.reqs[r].buf == buf
  }

  ghost predicate InUse(s: Relay, buf: nat) {
    exists r :: Uses(s, r, buf)
  }

  /** No buffer leaks. */
  ghost predicate NoLeak(s: Relay) {
    forall buf :: buf in s.heap ==> buf in s.free || InUse(s, buf)
  }

  lemma StepUses(cfgs: seq<RM.Config>, s: Relay, step: Step, n: nat, r: nat, buf: nat)
    requires |cfgs| == |s.backends| && Enabled(s, step) && Uses(s, r, buf)
    requires RequestStep(step) ==> GosInv(s.reqs[step.r], n)
    ensures Uses(Apply(cfgs, s, step), r, buf) || (step.Recycle? && step.r == r)
  {
    if RequestStep(step) {
      RequestStepBuffer(s, step, n);
    }
  }

  lemma StepNoLeak(cfgs: seq<RM.Config>, s: Relay, step: Step, n: nat)
    requires |cfgs| == |s.backends| && Enabled(s, step) && RequestsInv(s.reqs, n) && NoLeak(s)
    ensures NoLeak(Apply(cfgs, s, step))
  {
    var s' := Apply(cfgs, s, step);
    forall buf | buf in s'.heap && buf !in s'.free
      ensures InUse(s', buf)
    {
      if step.Arrive? && step.buf == buf {
        assert Uses(s', step.r, buf);
      } else {
        var r :| Uses(s, r, buf);
        StepUses(cfgs, s, step, n, r, buf);
      }
    }
  }

  lemma {:induction false} RunNoLeak(cfgs: seq<RM.Config>, run: seq<Relay>, i: nat)
    requires IsRun(cfgs, run) && i < |run|
    ensures NoLeak(run[i])
  {
    if i > 0 {
      RunNoLeak(cfgs, run, i - 1);
      RunKeepsInv(cfgs, run, i - 1);
      assert Next(cfgs, run[i - 1], run[i - 1 + 1]);
      var step :| Enabled(run[i - 1], step) && run[i] == Apply(cfgs, run[i - 1], step);
      StepNoLeak(cfgs, run[i - 1], step, |cfgs|);
    }
  }

  /** Every output buffer there is is either in the pool or in use by exactly one request
      that has not recycled it: none is lost, none has two owners. */
  lemma BuffersConserved(cfgs: seq<RM.Config>, s: Relay, buf: nat)
    requires Reachable(cfgs, s)
    ensures buf in s.free ==> buf in s.heap
    ensures buf in s.heap ==> (buf in s.free <==> !InUse(s, buf))
    ensures forall r, q :: Uses(s, r, buf) && Uses(s, q, buf) ==> r == q
  {
    ReachablePool(cfgs, s);
    var run :| IsRun(cfgs, run) && run[|run| - 1] == s;
    RunNoLeak(cfgs, run, |run| - 1);
  }
}
