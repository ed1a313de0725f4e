/** What every step of the relay keeps. */
module RelayInvariants {
  import opened Basics
  import opened BatchList
  import opened FanOut
  import opened RelayMachine
  import RM = RetryMachine

  // ---------------------------------------------------------------- counting goroutines

  function CountSent(gos: seq<GoPc>): nat {
    if gos == [] then 0
    else (if (gos[0].Leaving? || gos[0].Gone?) && gos[0].sent then 1 else 0) + CountSent(gos[1..])
  }

  function CountLive(gos: seq<GoPc>): nat {
    if gos == [] then 0 else (if gos[0].Gone? then 0 else 1) + CountLive(gos[1..])
  }

  function Sent(g: GoPc): nat {
    if (g.Leaving? || g.Gone?) && g.sent then 1 else 0
  }

  function Live(g: GoPc): nat {
    if g.Gone? then 0 else 1
  }

  lemma {:induction false} CountUpdate(gos: seq<GoPc>, b: nat, g: GoPc)
    requires b < |gos|
    ensures CountSent(gos[b := g]) == CountSent(gos) - Sent(gos[b]) + Sent(g)
    ensures CountLive(gos[b := g]) == CountLive(gos) - Live(gos[b]) + Live(g)
  {
    var gos' := gos[b := g];
    if b == 0 {
      assert gos'[1..] == gos[1..];
    } else {
      CountUpdate(gos[1..], b - 1, g);
      assert gos'[1..] == gos[1..][b - 1 := g];
    }
  }

  /** Not all have sent while one has not. */
  lemma {:induction false} CountBounds(gos: seq<GoPc>)
    ensures CountSent(gos) <= |gos|
    ensures (exists b :: 0 <= b < |gos| && Sent(gos[b]) == 0) ==> CountSent(gos) < |gos|
    ensures CountLive(gos) == 0 <==> forall b :: 0 <= b < |gos| ==> gos[b].Gone?
    ensures CountSent(gos) == 0 <==> forall b :: 0 <= b < |gos| ==> Sent(gos[b]) == 0
  {
    if gos != [] {
      CountBounds(gos[1..]);
      assert forall b :: 0 < b < |gos| ==> gos[b] == gos[1..][b - 1];
      assert forall b :: 0 <= b < |gos| - 1 ==> gos[1..][b] == gos[b + 1];
    }
  }

  lemma {:induction false} CountFresh(gos: seq<GoPc>)
    requires forall b :: 0 <= b < |gos| ==> gos[b] == NotSpawned
    ensures CountSent(gos) == 0 && CountLive(gos) == |gos|
  {
    if gos != [] {
      CountFresh(gos[1..]);
    }
  }

  lemma {:induction false} RespsIndex(arrivals: seq<Arrival>)
    ensures |Resps(arrivals)| == |arrivals|
    ensures forall i :: 0 <= i < |arrivals| ==> Resps(arrivals)[i] == arrivals[i].resp
  {
    if arrivals != [] {
      RespsIndex(arrivals[..|arrivals| - 1]);
    }
  }

  // ---------------------------------------------------------------- one request

  /** The goroutines of a request: spawned in order, counted by the WaitGroup, and the
      channel is closed only when all are gone. */
  ghost predicate GosInv(q: Request, n: nat) {
    && |q.gos| == n
    && q.wg == CountLive(q.gos)
    && |q.arrivals| == CountSent(q.gos)
    && q.received <= |q.arrivals|
    && (q.closed <==> q.closer.ChannelClosed? || q.closer.Ended?)
    && (q.closed ==> q.wg == 0)
    && q.puts == (if q.closer.Ended? then 1 else 0)
    && (q.closer.NotStarted? <==> q.handler.Spawning?)
    && (q.handler.Spawning? ==>
          q.handler.next <= n &&
          forall b :: 0 <= b < n ==> (q.gos[b].NotSpawned? <==> b >= q.handler.next))
    && (!q.handler.Spawning? ==> forall b :: 0 <= b < n ==> !q.gos[b].NotSpawned?)
    && (q.handler.Spawning? ==> q.received == 0)
  }

  /** The handler holds on to the latest response while none was decisive, and what it
      replies is the verdict on everything that has arrived. */
  ghost predicate HandlerInv(q: Request) {
    var rs := Resps(q.arrivals);
    && q.received <= |rs|
    && match q.handler
       case Spawning(_) => true
       case Receiving(held) =>
         && FirstDecisive(rs) >= q.received
         && held == (if q.received == 0 then None else Some(rs[q.received - 1]))
       case Replied(answer) =>
         && answer == Verdict(rs)
         && (FirstDecisive(rs) < |rs| || q.closed)
  }

  ghost predicate RequestInv(q: Request, n: nat) {
    GosInv(q, n) && HandlerInv(q)
  }

  lemma NewRequestInv(k: Key, data: Bytes, buf: nat, n: nat)
    ensures RequestInv(NewRequest(k, data, buf, n), n)
  {
    CountFresh(NewRequest(k, data, buf, n).gos);
  }

  predicate RequestStep(step: Step) {
    step.Spawn? || step.SpawnCloser? || step.Leave? || step.Send? || step.Exit? ||
    step.Close? || step.Recycle? || step.Receive? || step.Finish?
  }

  /** Steps that move one goroutine of the request. */
  predicate GoStep(step: Step) {
    step.Spawn? || step.Leave? || step.Send? || step.Exit?
  }

  function GoOf(s: Relay, step: Step): nat
    requires GoStep(step) && Enabled(s, step)
  {
    if step.Spawn? then s.reqs[step.r].handler.next else step.b
  }

  /** A goroutine goes from spawned to gone and keeps in mind whether it has sent. */
  predicate GoMove(g: GoPc, g': GoPc) {
    match g
    case NotSpawned => g'.Spawned?
    case InPost => g'.Sending? || g' == Leaving(false)
    case Sending(_) => g' == Leaving(true)
    case Leaving(sent) => g' == Gone(sent)
    case _ => false
  }

  lemma GoStepKept(s: Relay, step: Step, n: nat)
    requires GoStep(step) && Enabled(s, step) && GosInv(s.reqs[step.r], n)
    ensures GosInv(ApplyRequest(s, step, s.reqs[step.r]), n)
  {
    var q, q', b := s.reqs[step.r], ApplyRequest(s, step, s.reqs[step.r]), GoOf(s, step);
    CountUpdate(q.gos, b, q'.gos[b]);
    CountBounds(q.gos);
  }

  lemma GosKept(s: Relay, step: Step, n: nat)
    requires RequestStep(step) && Enabled(s, step) && GosInv(s.reqs[step.r], n)
    ensures GosInv(ApplyRequest(s, step, s.reqs[step.r]), n)
  {
    if GoStep(step) {
      GoStepKept(s, step, n);
    } else {
      CountBounds(s.reqs[step.r].gos);
    }
  }

  lemma HandlerKept(s: Relay, step: Step, n: nat)
    requires RequestStep(step) && Enabled(s, step) && RequestInv(s.reqs[step.r], n)
    ensures HandlerInv(ApplyRequest(s, step, s.reqs[step.r]))
  {
    if step.Send? {
      SendHandlerKept(s, step);
    } else if step.Receive? || step.Finish? {
      ReceiveHandlerKept(s, step);
    }
  }

  lemma SendHandlerKept(s: Relay, step: Step)
    requires step.Send? && Enabled(s, step) && HandlerInv(s.reqs[step.r])
    ensures HandlerInv(ApplyRequest(s, step, s.reqs[step.r]))
  {
    var q := s.reqs[step.r];
    var a := Arrival(step.b, q.gos[step.b].resp);
    SendKeepsHandler(q, a);
  }

  lemma ReceiveHandlerKept(s: Relay, step: Step)
    requires (step.Receive? || step.Finish?) && Enabled(s, step) && HandlerInv(s.reqs[step.r])
    ensures HandlerInv(ApplyRequest(s, step, s.reqs[step.r]))
  {
    if step.Receive? {
      ReceiveKeepsHandler(s.reqs[step.r]);
    } else {
      FinishKeepsHandler(s.reqs[step.r]);
    }
  }

  lemma FinishKeepsHandler(q: Request)
    requires HandlerInv(q) && q.handler.Receiving? && q.received == |q.arrivals| && q.closed
    ensures var reply := if q.handler.held.None? then Unavailable else Relayed(q.handler.held.value);
            HandlerInv(q.(handler := Replied(reply)))
  {
    RespsIndex(q.arrivals);
  }

  lemma ReceiveKeepsHandler(q: Request)
    requires HandlerInv(q) && q.handler.Receiving? && q.received < |q.arrivals|
    ensures var resp := q.arrivals[q.received].resp;
            HandlerInv(q.(received := q.received + 1,
              handler := if Decisive(resp) then Replied(AnswerTo(resp)) else Receiving(Some(resp))))
  {
    RespsIndex(q.arrivals);
    FirstDecisiveIs(Resps(q.arrivals), q.received);
  }

  lemma SendKeepsHandler(q: Request, a: Arrival)
    requires HandlerInv(q) && !q.closed
    ensures HandlerInv(q.(arrivals := q.arrivals + [a]))
  {
    var rs := Resps(q.arrivals);
    if FirstDecisive(rs) < |rs| {
      VerdictStable(rs, [a.resp]);
    } else {
      FirstDecisiveIs(rs + [a.resp], |rs|);
    }
  }

  // ---------------------------------------------------------------- requests and backends

  /** A goroutine of request `r` and the post it makes at a backend go hand in hand. */
  predicate GoOk(q: Request, r: nat, go: GoPc, posts: map<nat, RM.Post>) {
    if go.NotSpawned? || go.Spawned? then r !in posts
    else
      && r in posts
      && posts[r].write == Write(r, q.buf, q.data) && posts[r].key == q.key
      && match go
         case Sending(resp) => posts[r].pc.Returned? && posts[r].pc.result == RM.Got(resp)
         case Leaving(sent) => posts[r].pc.Returned? && (sent <==> posts[r].pc.result.Got?)
         case Gone(sent) => posts[r].pc.Returned? && (sent <==> posts[r].pc.result.Got?)
         case _ => true
  }

  predicate LinkOk(s: Relay, r: nat, b: nat)
    requires r in s.reqs && b < |s.backends|
  {
    b < |s.reqs[r].gos| && GoOk(s.reqs[r], r, s.reqs[r].gos[b], s.backends[b].posts)
  }

  ghost predicate LinkInv(s: Relay) {
    && (forall r, b :: r in s.reqs && 0 <= b < |s.backends| ==> LinkOk(s, r, b))
    && (forall b, r :: 0 <= b < |s.backends| && r in s.backends[b].posts ==> r in s.reqs)
  }

  /** Every response on the channel is what a backend's post returned. */
  ghost predicate ArrivalInv(s: Relay) {
    forall r, i :: r in s.reqs && 0 <= i < |s.reqs[r].arrivals| ==> ArrivalOk(s, r, s.reqs[r].arrivals[i])
  }

  predicate ArrivalOk(s: Relay, r: nat, a: Arrival) {
    && a.from < |s.backends| && r in s.backends[a.from].posts
    && s.backends[a.from].posts[r].pc.Returned?
    && s.backends[a.from].posts[r].pc.result == RM.Got(a.resp)
  }

  /** The output buffer of a request is its own, and intact, until it is recycled. */
  ghost predicate PoolInv(s: Relay) {
    && (forall r :: r in s.reqs && !s.reqs[r].closer.Ended? ==>
          && s.reqs[r].buf in s.heap && s.heap[s.reqs[r].buf] == s.reqs[r].data
          && s.reqs[r].buf !in s.free)
    && (forall r, q :: r in s.reqs && q in s.reqs && r != q && !s.reqs[r].closer.Ended? && !s.reqs[q].closer.Ended? ==>
          s.reqs[r].buf != s.reqs[q].buf)
    && (forall buf :: buf in s.free ==> buf in s.heap)
  }

  /** Seen on its own, every backend runs the machine of RetryMachine. */
  ghost predicate BackendsInv(cfgs: seq<RM.Config>, backends: seq<RM.State>) {
    |backends| == |cfgs| && forall b :: 0 <= b < |cfgs| ==> RM.Reachable(cfgs[b], backends[b])
  }

  ghost predicate RequestsInv(reqs: map<nat, Request>, n: nat) {
    forall r :: r in reqs ==> RequestInv(reqs[r], n)
  }

  ghost predicate Inv(cfgs: seq<RM.Config>, s: Relay) {
    && BackendsInv(cfgs, s.backends)
    && RequestsInv(s.reqs, |cfgs|)
    && LinkInv(s)
    && ArrivalInv(s)
    && PoolInv(s)
  }

  // ---------------------------------------------------------------- what backends rely on

  /** No buffer is recycled under a post that is still running. */
  lemma BuffersStable(cfgs: seq<RM.Config>, s: Relay, b: nat)
    requires Inv(cfgs, s) && b < |cfgs|
    ensures RM.Stable(s.backends[b], s.heap)
  {
    var posts := s.backends[b].posts;
    forall r | r in posts && !RM.Finished(posts[r])
      ensures posts[r].write.buf in s.heap && s.heap[posts[r].write.buf] == posts[r].write.data
    {
      var q := s.reqs[r];
      assert LinkOk(s, r, b);
      CountBounds(q.gos);
      assert RequestInv(q, |cfgs|);
    }
  }

  // ---------------------------------------------------------------- steps

  lemma ArriveKeeps(cfgs: seq<RM.Config>, s: Relay, r: nat, k: Key, data: Bytes, buf: nat)
    requires Inv(cfgs, s) && Enabled(s, Arrive(r, k, data, buf))
    ensures Inv(cfgs, Apply(cfgs, s, Arrive(r, k, data, buf)))
  {
    var s' := Apply(cfgs, s, Arrive(r, k, data, buf));
    NewRequestInv(k, data, buf, |cfgs|);
    OneRequest(s.reqs, r, NewRequest(k, data, buf, |cfgs|), |cfgs|);
    ArriveLink(cfgs, s, r, k, data, buf);
    forall q, i | q in s'.reqs && 0 <= i < |s'.reqs[q].arrivals|
      ensures ArrivalOk(s', q, s'.reqs[q].arrivals[i])
    {
      assert q in s.reqs && ArrivalOk(s, q, s.reqs[q].arrivals[i]);
    }
  }

  lemma OneRequest(reqs: map<nat, Request>, r: nat, q: Request, n: nat)
    requires RequestsInv(reqs, n) && RequestInv(q, n)
    ensures RequestsInv(reqs[r := q], n)
  {
  }

  lemma OneBackend(cfgs: seq<RM.Config>, backends: seq<RM.State>, b: nat, st: RM.State)
    requires BackendsInv(cfgs, backends) && b < |cfgs| && RM.Reachable(cfgs[b], st)
    ensures BackendsInv(cfgs, backends[b := st])
  {
  }

  lemma ArriveLink(cfgs: seq<RM.Config>, s: Relay, r: nat, k: Key, data: Bytes, buf: nat)
    requires LinkInv(s) && |s.backends| == |cfgs| && Enabled(s, Arrive(r, k, data, buf))
    ensures LinkInv(Apply(cfgs, s, Arrive(r, k, data, buf)))
  {
    var s' := Apply(cfgs, s, Arrive(r, k, data, buf));
    forall p, b | p in s'.reqs && 0 <= b < |s'.backends|
      ensures LinkOk(s', p, b)
    {
      assert p in s.reqs ==> LinkOk(s, p, b);
    }
  }

  lemma RequestStepArrivals(cfgs: seq<RM.Config>, s: Relay, step: Step, i: nat)
    requires RequestStep(step) && Enabled(s, step) && LinkInv(s) && ArrivalInv(s) && |s.backends| == |cfgs|
    requires i < |ApplyRequest(s, step, s.reqs[step.r]).arrivals|
    ensures ArrivalOk(Apply(cfgs, s, step), step.r, ApplyRequest(s, step, s.reqs[step.r]).arrivals[i])
  {
    var q := s.reqs[step.r];
    if i < |q.arrivals| {
      assert ArrivalOk(s, step.r, q.arrivals[i]);
    } else {
      assert LinkOk(s, step.r, step.b);
    }
  }

  lemma RequestStepPool(cfgs: seq<RM.Config>, s: Relay, step: Step)
    requires RequestStep(step) && Enabled(s, step) && PoolInv(s) && |s.backends| == |cfgs|
    requires GosInv(s.reqs[step.r], |cfgs|)
    ensures PoolInv(Apply(cfgs, s, step))
  {
    RequestStepBuffer(s, step, |cfgs|);
  }

  lemma RequestStepBuffer(s: Relay, step: Step, n: nat)
    requires RequestStep(step) && Enabled(s, step) && GosInv(s.reqs[step.r], n)
    ensures var q, q' := s.reqs[step.r], ApplyRequest(s, step, s.reqs[step.r]);
            && q'.buf == q.buf && q'.data == q.data
            && (q'.closer.Ended? <==> q.closer.Ended? || step.Recycle?)
  {
  }

  lemma RequestStepLink(cfgs: seq<RM.Config>, s: Relay, step: Step)
    requires RequestStep(step) && Enabled(s, step) && LinkInv(s) && |s.backends| == |cfgs|
    requires GosInv(s.reqs[step.r], |cfgs|)
    ensures LinkInv(Apply(cfgs, s, step))
  {
    var s' := Apply(cfgs, s, step);
    forall r, b | r in s'.reqs && 0 <= b < |s'.backends|
      ensures LinkOk(s', r, b)
    {
      assert LinkOk(s, r, b);
      if r == step.r {
        assert s'.reqs[r] == ApplyRequest(s, step, s.reqs[r]);
      } else {
        assert s'.reqs[r] == s.reqs[r];
      }
    }
  }

  lemma RequestStepKeeps(cfgs: seq<RM.Config>, s: Relay, step: Step)
    requires Inv(cfgs, s) && RequestStep(step) && Enabled(s, step)
    ensures Inv(cfgs, Apply(cfgs, s, step))
  {
    var s' := Apply(cfgs, s, step);
    GosKept(s, step, |cfgs|);
    HandlerKept(s, step, |cfgs|);
    OneRequest(s.reqs, step.r, ApplyRequest(s, step, s.reqs[step.r]), |cfgs|);
    RequestStepLink(cfgs, s, step);
    RequestStepPool(cfgs, s, step);
    RequestStepArrivalInv(cfgs, s, step);
    assert s'.backends == s.backends;
  }

  lemma RequestStepArrivalInv(cfgs: seq<RM.Config>, s: Relay, step: Step)
    requires RequestStep(step) && Enabled(s, step) && LinkInv(s) && ArrivalInv(s) && |s.backends| == |cfgs|
    ensures ArrivalInv(Apply(cfgs, s, step))
  {
    var s' := Apply(cfgs, s, step);
    forall r, i | r in s'.reqs && 0 <= i < |s'.reqs[r].arrivals|
      ensures ArrivalOk(s', r, s'.reqs[r].arrivals[i])
    {
      if r == step.r {
        RequestStepArrivals(cfgs, s, step, i);
      } else {
        assert ArrivalOk(s, r, s.reqs[r].arrivals[i]);
      }
    }
  }

  /** A step inside backend `b`, other than a new post. */
  lemma InsideKeeps(cfgs: seq<RM.Config>, s: Relay, b: nat, step: RM.Step)
    requires Inv(cfgs, s) && Enabled(s, Inside(b, step))
    ensures Inv(cfgs, Apply(cfgs, s, Inside(b, step)))
  {
    var s' := Apply(cfgs, s, Inside(b, step));
    BuffersStable(cfgs, s, b);
    RM.StepReachable(cfgs[b], s.backends[b], step, s.heap);
    RM.PostsKept(cfgs[b], s.backends[b], step, s.heap);
    OneBackend(cfgs, s.backends, b, s'.backends[b]);
    InsideLink(s, s', b);
    InsideArrivals(s, s', b);
  }

  lemma InsideLink(s: Relay, s': Relay, b: nat)
    requires LinkInv(s) && b < |s.backends| && s'.reqs == s.reqs
    requires |s'.backends| == |s.backends| && s'.backends == s.backends[b := s'.backends[b]]
    requires RM.PostsGrow(s.backends[b].posts, s'.backends[b].posts)
    requires forall p :: p in s'.backends[b].posts ==> p in s.backends[b].posts
    ensures LinkInv(s')
  {
    forall r, c | r in s'.reqs && 0 <= c < |s'.backends|
      ensures LinkOk(s', r, c)
    {
      assert LinkOk(s, r, c);
    }
  }

  lemma InsideArrivals(s: Relay, s': Relay, b: nat)
    requires ArrivalInv(s) && b < |s.backends|
    requires forall r :: r in s'.reqs ==> r in s.reqs && s'.reqs[r].arrivals == s.reqs[r].arrivals
    requires |s'.backends| == |s.backends| && s'.backends == s.backends[b := s'.backends[b]]
    requires RM.PostsGrow(s.backends[b].posts, s'.backends[b].posts)
    ensures ArrivalInv(s')
  {
    forall r, i | r in s'.reqs && 0 <= i < |s'.reqs[r].arrivals|
      ensures ArrivalOk(s', r, s'.reqs[r].arrivals[i])
    {
      assert ArrivalOk(s, r, s.reqs[r].arrivals[i]);
    }
  }

  lemma EnterKeeps(cfgs: seq<RM.Config>, s: Relay, r: nat, b: nat)
    requires Inv(cfgs, s) && Enabled(s, Enter(r, b))
    ensures Inv(cfgs, Apply(cfgs, s, Enter(r, b)))
  {
    var s' := Apply(cfgs, s, Enter(r, b));
    EnterBackend(cfgs, s, r, b);
    OneBackend(cfgs, s.backends, b, s'.backends[b]);
    EnterRequest(cfgs, s, r, b);
    OneRequest(s.reqs, r, s'.reqs[r], |cfgs|);
    EnterLink(cfgs, s, r, b);
    InsideArrivals(s, s', b);
    EnterPool(cfgs, s, r, b);
  }

  lemma EnterBackend(cfgs: seq<RM.Config>, s: Relay, r: nat, b: nat)
    requires Inv(cfgs, s) && Enabled(s, Enter(r, b))
    ensures var s' := Apply(cfgs, s, Enter(r, b));
            && RM.Reachable(cfgs[b], s'.backends[b])
            && RM.PostsGrow(s.backends[b].posts, s'.backends[b].posts)
  {
    var q := s.reqs[r];
    var begin := RM.Begin(r, Write(r, q.buf, q.data), q.key);
    BuffersStable(cfgs, s, b);
    RM.StepReachable(cfgs[b], s.backends[b], begin, s.heap);
    RM.PostsKept(cfgs[b], s.backends[b], begin, s.heap);
  }

  lemma EnterRequest(cfgs: seq<RM.Config>, s: Relay, r: nat, b: nat)
    requires |s.backends| == |cfgs| && Enabled(s, Enter(r, b)) && RequestInv(s.reqs[r], |cfgs|)
    ensures RequestInv(Apply(cfgs, s, Enter(r, b)).reqs[r], |cfgs|)
  {
    CountUpdate(s.reqs[r].gos, b, InPost);
  }

  lemma EnterPool(cfgs: seq<RM.Config>, s: Relay, r: nat, b: nat)
    requires |s.backends| == |cfgs| && Enabled(s, Enter(r, b)) && PoolInv(s)
    ensures PoolInv(Apply(cfgs, s, Enter(r, b)))
  {
  }

  lemma EnterLink(cfgs: seq<RM.Config>, s: Relay, r: nat, b: nat)
    requires LinkInv(s) && |s.backends| == |cfgs| && Enabled(s, Enter(r, b))
    ensures LinkInv(Apply(cfgs, s, Enter(r, b)))
  {
    var s' := Apply(cfgs, s, Enter(r, b));
    forall p, c | p in s'.reqs && 0 <= c < |s'.backends|
      ensures LinkOk(s', p, c)
    {
      assert LinkOk(s, p, c);
    }
  }

  lemma KeepsInv(cfgs: seq<RM.Config>, s: Relay, step: Step)
    requires Inv(cfgs, s) && Enabled(s, step)
    ensures Inv(cfgs, Apply(cfgs, s, step))
  {
    match step
    case Arrive(r, k, data, buf) => ArriveKeeps(cfgs, s, r, k, data, buf);
    case Enter(r, b) => EnterKeeps(cfgs, s, r, b);
    case Inside(b, inner) => InsideKeeps(cfgs, s, b, inner);
    case Scribble(buf, content) => ScribbleKeeps(cfgs, s, buf, content);
    case _ => RequestStepKeeps(cfgs, s, step);
  }

  lemma ScribbleKeeps(cfgs: seq<RM.Config>, s: Relay, buf: nat, content: Bytes)
    requires Inv(cfgs, s) && Enabled(s, Scribble(buf, content))
    ensures Inv(cfgs, Apply(cfgs, s, Scribble(buf, content)))
  {
    var s' := Apply(cfgs, s, Scribble(buf, content));
    HeapOnly(s, s');
  }

  lemma HeapOnly(s: Relay, s': Relay)
    requires LinkInv(s) && ArrivalInv(s) && s'.reqs == s.reqs && s'.backends == s.backends
    ensures LinkInv(s') && ArrivalInv(s')
  {
    forall r, b | r in s'.reqs && 0 <= b < |s'.backends|
      ensures LinkOk(s', r, b)
    {
      assert LinkOk(s, r, b);
    }
    forall r, i | r in s'.reqs && 0 <= i < |s'.reqs[r].arrivals|
      ensures ArrivalOk(s', r, s'.reqs[r].arrivals[i])
    {
      assert ArrivalOk(s, r, s.reqs[r].arrivals[i]);
    }
  }

  lemma InitInv(cfgs: seq<RM.Config>)
    ensures Inv(cfgs, Init(|cfgs|))
  {
    forall b | 0 <= b < |cfgs|
      ensures RM.Reachable(cfgs[b], Init(|cfgs|).backends[b])
    {
      RM.InitReachable(cfgs[b]);
    }
  }

  lemma {:induction false} RunKeepsInv(cfgs: seq<RM.Config>, run: seq<Relay>, i: nat)
    requires IsRun(cfgs, run) && i < |run|
    ensures Inv(cfgs, run[i])
  {
    if i == 0 {
      InitInv(cfgs);
    } else {
      RunKeepsInv(cfgs, run, i - 1);
      assert Next(cfgs, run[i - 1], run[i - 1 + 1]);
      var step :| Enabled(run[i - 1], step) && run[i] == Apply(cfgs, run[i - 1], step);
      KeepsInv(cfgs, run[i - 1], step);
    }
  }

  lemma ReachableInv(cfgs: seq<RM.Config>, s: Relay)
    requires Reachable(cfgs, s)
    ensures Inv(cfgs, s)
  {
    var run :| IsRun(cfgs, run) && run[|run| - 1] == s;
    RunKeepsInv(cfgs, run, |run| - 1);
  }

  /** The facts about one request of a reachable state. */
  lemma ReachableRequest(cfgs: seq<RM.Config>, s: Relay, r: nat)
    requires Reachable(cfgs, s) && r in s.reqs
    ensures |s.backends| == |cfgs| && RequestInv(s.reqs[r], |cfgs|)
    ensures s.reqs[r].closed ==> forall b :: 0 <= b < |cfgs| ==> s.reqs[r].gos[b].Gone?
  {
    ReachableInv(cfgs, s);
    CountBounds(s.reqs[r].gos);
  }

  lemma ReachableLink(cfgs: seq<RM.Config>, s: Relay, r: nat, b: nat)
    requires Reachable(cfgs, s) && r in s.reqs && b < |s.backends|
    ensures LinkOk(s, r, b)
  {
    ReachableInv(cfgs, s);
  }
}
