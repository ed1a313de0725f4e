/** The write path of the HTTP relay as a step system: requests arrive, each spawns one
    goroutine per backend and one that closes the response channel and recycles the
    output buffer, and the handler may answer and return before the others finish. The
    backends are the machines of RetryMachine; pooled buffers are reused by later
    requests, so a buffer recycled too early would corrupt what is sent. */
module RelayMachine {
  import opened Basics
  import opened BatchList
  import opened FanOut
  import RM = RetryMachine

  /** A goroutine that posts to one backend. */
  datatype GoPc =
    | NotSpawned
    | Spawned
    | InPost
    | Sending(resp: Response)  // about to send on the channel
    | Leaving(sent: bool)      // about to call wg.Done
    | Gone(sent: bool)

  /** The goroutine that waits for the others. */
  datatype CloserPc = NotStarted | AwaitingAll | ChannelClosed | Ended

  datatype HandlerPc = Spawning(next: nat) | Receiving(held: Option<Response>) | Replied(answer: Answer)

  datatype Arrival = Arrival(from: nat, resp: Response)

  /** `arrivals` are all responses sent on the channel; the first `received` of them
      have been taken out. `puts` counts how often `outBuf` went back to the pool. */
  datatype Request = Request(
    key: Key, data: Bytes, buf: nat,
    gos: seq<GoPc>, wg: int,
    arrivals: seq<Arrival>, received: nat, closed: bool,
    closer: CloserPc, puts: nat,
    handler: HandlerPc)

  /** `heap` holds the contents of all buffers, `free` those in the pool. */
  datatype Relay = Relay(
    backends: seq<RM.State>,
    reqs: map<nat, Request>,
    heap: RM.Heap,
    free: set<nat>)

  datatype Step =
    | Arrive(r: nat, key: Key, data: Bytes, buf: nat)
    | Spawn(r: nat)
    | SpawnCloser(r: nat)
    | Enter(r: nat, b: nat)
    | Inside(b: nat, step: RM.Step)
    | Leave(r: nat, b: nat)
    | Send(r: nat, b: nat)
    | Exit(r: nat, b: nat)
    | Close(r: nat)
    | Recycle(r: nat)
    | Receive(r: nat)
    | Finish(r: nat)
    | Scribble(buf: nat, content: Bytes)

  function Init(n: nat): Relay {
    Relay(seq(n, _ => RM.Init()), map[], map[], {})
  }

  function Resps(arrivals: seq<Arrival>): seq<Response> {
    if arrivals == [] then [] else Resps(arrivals[..|arrivals| - 1]) + [arrivals[|arrivals| - 1].resp]
  }

  predicate HasGo(s: Relay, r: nat, b: nat) {
    r in s.reqs && b < |s.reqs[r].gos| && b < |s.backends|
  }

  /** Whether the thread of the step is at its program point and not blocked. A buffer
      taken from the pool is a free one or a new one. Sending blocks while the channel
      is full. */
  predicate Enabled(s: Relay, step: Step) {
    match step
    case Arrive(r, k, d, buf) => r !in s.reqs && (buf in s.free || buf !in s.heap)
    case Spawn(r) =>
      r in s.reqs && s.reqs[r].handler.Spawning? && s.reqs[r].handler.next < |s.reqs[r].gos|
    case SpawnCloser(r) =>
      r in s.reqs && s.reqs[r].handler.Spawning? && s.reqs[r].handler.next == |s.reqs[r].gos|
    case Enter(r, b) =>
      HasGo(s, r, b) && s.reqs[r].gos[b].Spawned?
      && RM.Enabled(s.backends[b], RM.Begin(r, Write(r, s.reqs[r].buf, s.reqs[r].data), s.reqs[r].key), s.heap)
    case Inside(b, step) =>
      b < |s.backends| && !step.Begin? && RM.Enabled(s.backends[b], step, s.heap)
    case Leave(r, b) =>
      HasGo(s, r, b) && s.reqs[r].gos[b].InPost?
      && r in s.backends[b].posts && s.backends[b].posts[r].pc.Returned?
    case Send(r, b) =>
      HasGo(s, r, b) && s.reqs[r].gos[b].Sending? && !s.reqs[r].closed
      && |s.reqs[r].arrivals| - s.reqs[r].received < |s.reqs[r].gos|
    case Exit(r, b) => HasGo(s, r, b) && s.reqs[r].gos[b].Leaving?
    case Close(r) => r in s.reqs && s.reqs[r].closer.AwaitingAll? && s.reqs[r].wg == 0
    case Recycle(r) => r in s.reqs && s.reqs[r].closer.ChannelClosed?
    case Receive(r) =>
      r in s.reqs && s.reqs[r].handler.Receiving? && s.reqs[r].received < |s.reqs[r].arrivals|
    case Finish(r) =>
      r in s.reqs && s.reqs[r].handler.Receiving? && s.reqs[r].received == |s.reqs[r].arrivals|
      && s.reqs[r].closed
    case Scribble(buf, content) => buf in s.free
  }

  function NewRequest(k: Key, data: Bytes, buf: nat, n: nat): Request {
    Request(k, data, buf, seq(n, _ => NotSpawned), n, [], 0, false, NotStarted, 0, Spawning(0))
  }

  /** Steps of the threads of one request, other than entering a backend. */
  function ApplyRequest(s: Relay, step: Step, q: Request): Request
    requires step.Spawn? || step.SpawnCloser? || step.Leave? || step.Send? || step.Exit? ||
             step.Close? || step.Recycle? || step.Receive? || step.Finish?
    requires Enabled(s, step) && step.r in s.reqs && s.reqs[step.r] == q
  {
    match step
    case Spawn(_) => q.(gos := q.gos[q.handler.next := Spawned], handler := Spawning(q.handler.next + 1))
    case SpawnCloser(_) => q.(closer := AwaitingAll, handler := Receiving(None))
    case Leave(r, b) =>
      var result := s.backends[b].posts[r].pc.result;
      q.(gos := q.gos[b := if result.Got? then Sending(result.resp) else Leaving(false)])
    case Send(_, b) =>
      q.(gos := q.gos[b := Leaving(true)], arrivals := q.arrivals + [Arrival(b, q.gos[b].resp)])
    case Exit(_, b) => q.(gos := q.gos[b := Gone(q.gos[b].sent)], wg := q.wg - 1)
    case Close(_) => q.(closed := true, closer := ChannelClosed)
    case Recycle(_) => q.(puts := q.puts + 1, closer := Ended)
    case Receive(_) =>
      var resp := q.arrivals[q.received].resp;
      q.(received := q.received + 1,
         handler := if Decisive(resp) then Replied(AnswerTo(resp)) else Receiving(Some(resp)))
    case Finish(_) =>
      q.(handler := Replied(if q.handler.held.None? then Unavailable else Relayed(q.handler.held.value)))
  }

  function Apply(cfgs: seq<RM.Config>, s: Relay, step: Step): Relay
    requires |cfgs| == |s.backends| && Enabled(s, step)
  {
    match step
    case Arrive(r, k, data, buf) =>
      s.(reqs := s.reqs[r := NewRequest(k, data, buf, |s.backends|)],
         heap := s.heap[buf := data], free := s.free - {buf})
    case Enter(r, b) =>
      var q := s.reqs[r];
      s.(reqs := s.reqs[r := q.(gos := q.gos[b := InPost])],
         backends := s.backends[b :=
           RM.Apply(cfgs[b], s.backends[b], RM.Begin(r, Write(r, q.buf, q.data), q.key), s.heap)])
    case Inside(b, step) =>
      s.(backends := s.backends[b := RM.Apply(cfgs[b], s.backends[b], step, s.heap)])
    case Scribble(buf, content) => s.(heap := s.heap[buf := content])
    case Recycle(r) =>
      s.(reqs := s.reqs[r := ApplyRequest(s, step, s.reqs[r])], free := s.free + {s.reqs[r].buf})
    case _ => s.(reqs := s.reqs[step.r := ApplyRequest(s, step, s.reqs[step.r])])
  }

  ghost predicate Next(cfgs: seq<RM.Config>, s: Relay, s': Relay) {
    |s.backends| == |cfgs| && exists step :: Enabled(s, step) && s' == Apply(cfgs, s, step)
  }

  ghost predicate IsRun(cfgs: seq<RM.Config>, run: seq<Relay>) {
    && run != [] && run[0] == Init(|cfgs|)
    && forall i :: 0 <= i < |run| - 1 ==> Next(cfgs, run[i], run[i + 1])
  }

  ghost predicate Reachable(cfgs: seq<RM.Config>, s: Relay) {
    exists run :: IsRun(cfgs, run) && run[|run| - 1] == s
  }

  lemma InitReachable(cfgs: seq<RM.Config>)
    ensures Reachable(cfgs, Init(|cfgs|))
  {
    assert IsRun(cfgs, [Init(|cfgs|)]);
  }

  lemma StepReachable(cfgs: seq<RM.Config>, s: Relay, step: Step)
    requires Reachable(cfgs, s) && |s.backends| == |cfgs| && Enabled(s, step)
    ensures Reachable(cfgs, Apply(cfgs, s, step))
  {
    var run :| IsRun(cfgs, run) && run[|run| - 1] == s;
    var s' := Apply(cfgs, s, step);
    assert Next(cfgs, s, s');
    assert IsRun(cfgs, run + [s']);
  }
}
