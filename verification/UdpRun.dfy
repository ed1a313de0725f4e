/** `UDP.Run`: one goroutine reads packets into a queue, another posts them to every
    backend; on a read error the first closes the queue and waits for the second. */
module UdpRun {
  import opened Basics
  import opened UdpSplit

  const QUEUE_SIZE: nat := 1024

  /** What a received packet renders to, line by line; None if it does not parse. */
  type Payload = Option<Bytes>

  /** `UDP.post`: every backend is tried, whatever happened at the others. */
  method PostAll(payload: Payload, mtus: seq<nat>, sockets: seq<Socket>)
    returns (sent: seq<seq<Bytes>>, endings: seq<Ending>)
    requires |sockets| == |mtus|
    ensures payload.None? ==> sent == [] && endings == []
    ensures payload.Some? ==>
      && |sent| == |endings| == |mtus|
      && forall b :: 0 <= b < |mtus| ==>
           EndsAs(Packets(payload.value, mtus[b]), Completes(payload.value, mtus[b]), sockets[b], sent[b], endings[b])
  {
    sent, endings := [], [];
    if payload.None? {
      return;
    }
    for b := 0 to |mtus|
      invariant |sent| == |endings| == b
      invariant forall c :: 0 <= c < b ==>
        EndsAs(Packets(payload.value, mtus[c]), Completes(payload.value, mtus[c]), sockets[c], sent[c], endings[c])
    {
      var out, ending := Post(payload.value, mtus[b], sockets[b]);
      sent, endings := sent + [out], endings + [ending];
    }
  }

  // ---------------------------------------------------------------- the two goroutines

  datatype ReaderPc =
    | Reading
    | Queuing(payload: Payload)  // counted by the WaitGroup, not yet queued
    | Closing                    // a read has failed
    | Draining                   // in wg.Wait
    | Returned

  datatype WorkerPc =
    | Taking
    | Posting(payload: Payload, next: nat)  // about to post to backend `next`
    | Finishing                             // about to call wg.Done
    | Exited

  /** A socket write that failed: at which backend, and for which of its payloads. */
  datatype Fault = Fault(backend: nat, payload: nat)

  /** `read` and `done` are histories; `sent` is what went out to each backend, for each
      payload that parsed; `faults` the socket writes that have failed. */
  datatype State = State(
    reader: ReaderPc, worker: WorkerPc,
    queue: seq<Payload>, closed: bool, wg: int,
    read: seq<Payload>, done: seq<Payload>,
    sent: seq<seq<seq<Bytes>>>, faults: set<Fault>)

  datatype Step =
    | Read(payload: Payload)
    | Enqueue
    | ReadError
    | CloseQueue
    | Return
    | Take
    | PostNext(faultAt: Option<nat>)  // number of packets written before a write fails
    | EndPost
    | Done
    | Exit

  function Init(n: nat): State {
    State(Reading, Taking, [], false, 0, [], [], seq(n, _ => []), {})
  }

  predicate Enabled(s: State, step: Step) {
    match step
    case Read(_) => s.reader.Reading?
    case Enqueue => s.reader.Queuing? && |s.queue| < QUEUE_SIZE && !s.closed
    case ReadError => s.reader.Reading?
    case CloseQueue => s.reader.Closing? && !s.closed
    case Return => s.reader.Draining? && s.wg == 0
    case Take => s.worker.Taking? && s.queue != []
    case PostNext(_) => s.worker.Posting? && s.worker.payload.Some? && s.worker.next < |s.sent|
    case EndPost => s.worker.Posting? && (s.worker.payload.None? || s.worker.next == |s.sent|)
    case Done => s.worker.Finishing?
    case Exit => s.worker.Taking? && s.queue == [] && s.closed
  }

  /** Whether the write after so many packets is one the post gets to. */
  predicate Fails(packets: seq<Bytes>, faultAt: Option<nat>) {
    faultAt.Some? && faultAt.value < |packets|
  }

  /** What one backend gets when its post fails after so many packets, if at all. */
  function Output(packets: seq<Bytes>, faultAt: Option<nat>): seq<Bytes> {
    if Fails(packets, faultAt) then packets[..faultAt.value] else packets
  }

  function Apply(mtus: seq<nat>, s: State, step: Step): State
    requires |mtus| == |s.sent| && Enabled(s, step)
  {
    match step
    case Read(p) => s.(reader := Queuing(p), wg := s.wg + 1, read := s.read + [p])
    case Enqueue => s.(reader := Reading, queue := s.queue + [s.reader.payload])
    case ReadError => s.(reader := Closing)
    case CloseQueue => s.(reader := Draining, closed := true)
    case Return => s.(reader := Returned)
    case Take => s.(worker := Posting(s.queue[0], 0), queue := s.queue[1..])
    case PostNext(faultAt) =>
      var b := s.worker.next;
      var packets := Packets(s.worker.payload.value, mtus[b]);
      s.(worker := Posting(s.worker.payload, b + 1),
         sent := s.sent[b := s.sent[b] + [Output(packets, faultAt)]],
         faults := if Fails(packets, faultAt) then s.faults + {Fault(b, |s.sent[b]|)} else s.faults)
    case EndPost => s.(worker := Finishing, done := s.done + [s.worker.payload])
    case Done => s.(worker := Taking, wg := s.wg - 1)
    case Exit => s.(worker := Exited)
  }

  /** Whatever `udpBackend.post` does is one of these steps. */
  lemma PostIsStep(data: Bytes, mtu: nat, socket: Socket, sent: seq<Bytes>, ending: Ending)
    requires EndsAs(Packets(data, mtu), Completes(data, mtu), socket, sent, ending)
    ensures var faultAt := if ending == SocketError then Some(|sent|) else None;
            && sent == Output(Packets(data, mtu), faultAt)
            && (Fails(Packets(data, mtu), faultAt) <==> ending == SocketError)
  {
  }

  // ---------------------------------------------------------------- runs

  /** A run with its steps: the i-th step leads from `run[i]` to `run[i + 1]`. */
  ghost predicate IsRun(mtus: seq<nat>, run: seq<State>, steps: seq<Step>) {
    && |run| == |steps| + 1 && run[0] == Init(|mtus|)
    && forall i :: 0 <= i < |steps| ==> Takes(mtus, run[i], steps[i], run[i + 1])
  }

  ghost predicate Takes(mtus: seq<nat>, s: State, step: Step, s': State) {
    |mtus| == |s.sent| && Enabled(s, step) && s' == Apply(mtus, s, step)
  }

  /** These steps, one after the other, lead to `s`. */
  ghost predicate Reached(mtus: seq<nat>, steps: seq<Step>, s: State) {
    exists run :: IsRun(mtus, run, steps) && run[|steps|] == s
  }

  lemma InitReached(mtus: seq<nat>)
    ensures Reached(mtus, [], Init(|mtus|))
  {
    assert IsRun(mtus, [Init(|mtus|)], []);
  }

  lemma StepReached(mtus: seq<nat>, steps: seq<Step>, s: State, step: Step)
    requires Reached(mtus, steps, s) && |mtus| == |s.sent| && Enabled(s, step)
    ensures Reached(mtus, steps + [step], Apply(mtus, s, step))
  {
    var run :| IsRun(mtus, run, steps) && run[|steps|] == s;
    assert IsRun(mtus, run + [Apply(mtus, s, step)], steps + [step]);
  }

  // ---------------------------------------------------------------- the invariant

  function InHand(w: WorkerPc): seq<Payload> {
    if w.Posting? then [w.payload] else []
  }

  function ToQueue(r: ReaderPc): seq<Payload> {
    if r.Queuing? then [r.payload] else []
  }

  /** The payloads that parsed, in order. */
  function Parsed(payloads: seq<Payload>): seq<Bytes> {
    if payloads == [] then []
    else
      var last := payloads[|payloads| - 1];
      Parsed(payloads[..|payloads| - 1]) + (if last.Some? then [last.value] else [])
  }

  /** How many of the payloads that parsed have been posted to backend `b`. */
  function Posts(s: State, b: nat): nat {
    |Parsed(s.done)| + if s.worker.Posting? && s.worker.payload.Some? && b < s.worker.next then 1 else 0
  }

  /** A backend got a payload's packets, or those before the one that failed. */
  predicate Got(sent: seq<Bytes>, packets: seq<Bytes>, failed: bool) {
    sent <= packets && (failed <==> sent != packets)
  }

  /** What backend `b` got, payload by payload. */
  ghost predicate SentInv(mtus: seq<nat>, s: State, b: nat)
    requires b < |mtus| == |s.sent|
  {
    var begun := Parsed(s.done + InHand(s.worker));
    && |s.sent[b]| == Posts(s, b) <= |begun|
    && forall i :: 0 <= i < |s.sent[b]| ==>
         Got(s.sent[b][i], Packets(begun[i], mtus[b]), Fault(b, i) in s.faults)
  }

  /** Failed writes belong to payloads already posted. */
  predicate FaultsInv(s: State) {
    forall f :: f in s.faults ==> f.backend < |s.sent| && f.payload < |s.sent[f.backend]|
  }

  predicate QueueInv(n: nat, s: State) {
    && |s.sent| == n
    && s.read == s.done + InHand(s.worker) + s.queue + ToQueue(s.reader)
    && s.wg == |s.queue| + |ToQueue(s.reader)| + (if s.worker.Posting? || s.worker.Finishing? then 1 else 0)
    && |s.queue| <= QUEUE_SIZE
    && (s.closed <==> s.reader.Draining? || s.reader.Returned?)
    && (s.reader.Returned? ==> s.wg == 0)
    && (s.worker.Exited? ==> s.queue == [] && s.closed)
    && (s.worker.Posting? ==> s.worker.next <= n)
  }

  ghost predicate Inv(mtus: seq<nat>, s: State) {
    && QueueInv(|mtus|, s)
    && FaultsInv(s)
    && forall b :: 0 <= b < |mtus| ==> SentInv(mtus, s, b)
  }

  lemma PostNextKeepsSent(mtus: seq<nat>, s: State, faultAt: Option<nat>, b: nat)
    requires Enabled(s, PostNext(faultAt)) && b < |mtus| == |s.sent| && FaultsInv(s) && SentInv(mtus, s, b)
    ensures SentInv(mtus, Apply(mtus, s, PostNext(faultAt)), b)
  {
  }

  lemma KeepsSent(mtus: seq<nat>, s: State, step: Step, b: nat)
    requires Enabled(s, step) && b < |mtus| == |s.sent| && FaultsInv(s) && SentInv(mtus, s, b)
    requires s.worker.Posting? ==> s.worker.next <= |mtus|
    ensures SentInv(mtus, Apply(mtus, s, step), b)
  {
    assert s.done + [] == s.done;
    match step
    case PostNext(faultAt) => PostNextKeepsSent(mtus, s, faultAt, b);
    case EndPost => EndPostKeepsSent(mtus, s, b);
    case _ =>
  }

  lemma EndPostKeepsSent(mtus: seq<nat>, s: State, b: nat)
    requires Enabled(s, EndPost) && b < |mtus| == |s.sent| && SentInv(mtus, s, b)
    ensures SentInv(mtus, Apply(mtus, s, EndPost), b)
  {
    var done' := s.done + [s.worker.payload];
    assert done' + [] == done';
  }

  lemma KeepsInv(mtus: seq<nat>, s: State, step: Step)
    requires Inv(mtus, s) && Enabled(s, step)
    ensures Inv(mtus, Apply(mtus, s, step))
  {
    forall b | 0 <= b < |mtus|
      ensures SentInv(mtus, Apply(mtus, s, step), b)
    {
      KeepsSent(mtus, s, step, b);
    }
  }

  lemma {:induction false} RunKeepsInv(mtus: seq<nat>, run: seq<State>, steps: seq<Step>, i: nat)
    requires IsRun(mtus, run, steps) && i < |run|
    ensures Inv(mtus, run[i])
  {
    if i > 0 {
      RunKeepsInv(mtus, run, steps, i - 1);
      assert Takes(mtus, run[i - 1], steps[i - 1], run[i - 1 + 1]);
      KeepsInv(mtus, run[i - 1], steps[i - 1]);
    }
  }

  // ---------------------------------------------------------------- what Run promises

  /** The payloads read by these steps, in order. */
  function Reads(steps: seq<Step>): seq<Payload> {
    if steps == [] then []
    else
      var last := steps[|steps| - 1];
      Reads(steps[..|steps| - 1]) + (if last.Read? then [last.payload] else [])
  }

  lemma {:induction false} ReadsRecorded(mtus: seq<nat>, run: seq<State>, steps: seq<Step>, i: nat)
    requires IsRun(mtus, run, steps) && i < |run|
    ensures run[i].read == Reads(steps[..i])
  {
    if i > 0 {
      ReadsRecorded(mtus, run, steps, i - 1);
      assert Takes(mtus, run[i - 1], steps[i - 1], run[i - 1 + 1]);
      assert steps[..i] == steps[..i - 1] + [steps[i - 1]];
    }
  }

  /** Nothing that was read gets lost or out of order on its way to the backends: it has
      been posted, is being posted, is queued, or is about to be. */
  lemma ReadsConserved(mtus: seq<nat>, steps: seq<Step>, s: State)
    requires Reached(mtus, steps, s)
    ensures Reads(steps) == s.done + InHand(s.worker) + s.queue + ToQueue(s.reader)
    ensures |s.queue| <= QUEUE_SIZE
    ensures Inv(mtus, s)
  {
    var run :| IsRun(mtus, run, steps) && run[|steps|] == s;
    RunKeepsInv(mtus, run, steps, |steps|);
    ReadsRecorded(mtus, run, steps, |steps|);
    assert steps[..|steps|] == steps;
  }

  /** When `Run` returns, everything it read has been posted, in the order it was read. */
  lemma DrainedOnReturn(mtus: seq<nat>, steps: seq<Step>, s: State)
    requires Reached(mtus, steps, s) && s.reader.Returned?
    ensures s.done == Reads(steps) && s.queue == []
  {
    ReadsConserved(mtus, steps, s);
  }

  /** The reader never meets a closed queue, and while it waits for the worker, the worker
      can move. */
  lemma DrainProgresses(mtus: seq<nat>, s: State) returns (step: Step)
    requires Inv(mtus, s) && (s.reader.Draining? || (s.reader.Queuing? && |s.queue| == QUEUE_SIZE))
    ensures s.reader.Queuing? ==> !s.closed
    ensures Enabled(s, step) && (step == Return || step.Take? || step.PostNext? || step.EndPost? || step.Done?)
  {
    match s.worker
    case Posting(payload, next) =>
      step := if payload.Some? && next < |s.sent| then PostNext(None) else EndPost;
    case Finishing => step := Done;
    case _ => step := if s.queue != [] then Take else Return;
  }

  /** Queuing a payload blocks exactly while 1024 are queued. */
  lemma QueuingBlocksExact(mtus: seq<nat>, steps: seq<Step>, s: State)
    requires Reached(mtus, steps, s)
    ensures |s.queue| <= 1024
    ensures s.reader.Queuing? ==> (Enabled(s, Enqueue) <==> |s.queue| < 1024)
  {
    ReadsConserved(mtus, steps, s);
  }

  predicate ReadFailed(r: ReaderPc) {
    r.Closing? || r.Draining? || r.Returned?
  }

  /** The steps a queued payload may still cost, for so many backends. */
  function QueueCost(queued: nat, backends: nat): nat {
    if queued == 0 then 0 else backends + 5 + QueueCost(queued - 1, backends)
  }

  /** How much is left to do once a read has failed. */
  function Remaining(s: State): nat {
    QueueCost(|s.queue|, |s.sent|) +
    (match s.worker
     case Taking => 1
     case Posting(_, next) => (if next < |s.sent| then |s.sent| - next else 0) + 3
     case Finishing => 2
     case Exited => 0) +
    (match s.reader
     case Closing => 2
     case Draining => 1
     case _ => 0)
  }

  /** After a failed read every step lowers what is left to do, so there are only finitely
      many, and while `Run` has not returned there is one: it returns. */
  lemma DrainTerminates(mtus: seq<nat>, s: State, step: Step)
    requires Inv(mtus, s) && ReadFailed(s.reader) && Enabled(s, step)
    ensures var s' := Apply(mtus, s, step); ReadFailed(s'.reader) && Remaining(s') < Remaining(s)
  {
  }

  lemma {:induction false} DrainBounded(mtus: seq<nat>, run: seq<State>, steps: seq<Step>, i: nat, j: nat)
    requires IsRun(mtus, run, steps) && i <= j < |run| && ReadFailed(run[i].reader)
    ensures ReadFailed(run[j].reader) && j - i + Remaining(run[j]) <= Remaining(run[i])
  {
    if i < j {
      DrainBounded(mtus, run, steps, i, j - 1);
      RunKeepsInv(mtus, run, steps, j - 1);
      assert Takes(mtus, run[j - 1], steps[j - 1], run[j - 1 + 1]);
      DrainTerminates(mtus, run[j - 1], steps[j - 1]);
    }
  }

  ghost predicate CanStep(s: State) {
    exists step :: Enabled(s, step)
  }

  /** After a failed read, a run that goes on for as long as it can ends with `Run`
      returned: it takes at most `Remaining` more steps, and stops only there. */
  lemma RunReturns(mtus: seq<nat>, run: seq<State>, steps: seq<Step>, i: nat)
    requires IsRun(mtus, run, steps) && i < |run| && ReadFailed(run[i].reader)
    ensures |run| - 1 - i <= Remaining(run[i])
    ensures run[|run| - 1].reader.Returned? || CanStep(run[|run| - 1])
  {
    var last := run[|run| - 1];
    DrainBounded(mtus, run, steps, i, |run| - 1);
    RunKeepsInv(mtus, run, steps, |run| - 1);
    if last.reader.Draining? {
      var step := DrainProgresses(mtus, last);
    } else if last.reader.Closing? {
      assert Enabled(last, CloseQueue);
    }
  }

  // ---------------------------------------------------------------- what the backends get

  /** The socket write fails while the i-th payload is posted to backend `b`. */
  predicate FailingStep(mtus: seq<nat>, s: State, step: Step, b: nat, i: nat) {
    && step.PostNext? && Enabled(s, step) && s.worker.next == b < |mtus| && b < |s.sent| && |s.sent[b]| == i
    && Fails(Packets(s.worker.payload.value, mtus[b]), step.faultAt)
  }

  /** A fault at a backend comes from a failing write at that very backend, for that very
      payload. */
  lemma {:induction false} FaultExact(mtus: seq<nat>, run: seq<State>, steps: seq<Step>, j: nat, b: nat, i: nat)
    requires IsRun(mtus, run, steps) && j < |run|
    ensures Fault(b, i) in run[j].faults <==>
            exists m :: 0 <= m < j && FailingStep(mtus, run[m], steps[m], b, i)
  {
    if j > 0 {
      FaultExact(mtus, run, steps, j - 1, b, i);
      assert Takes(mtus, run[j - 1], steps[j - 1], run[j - 1 + 1]);
      assert Fault(b, i) in run[j].faults <==>
             Fault(b, i) in run[j - 1].faults || FailingStep(mtus, run[j - 1], steps[j - 1], b, i);
    }
  }

  lemma SentWhole(mtu: nat, sent: seq<Bytes>, data: Bytes)
    requires Got(sent, Packets(data, mtu), false) && LinesFit(data, mtu)
    ensures Flatten(sent) == data
  {
    SplitSucceedsExactly(data, mtu);
    SplitSends(data, mtu);
  }

  /** When `Run` returns, every backend has got the packets of every payload read that
      parsed, payload by payload. A failing write costs that backend the rest of that
      payload, and nothing else anywhere; payloads whose lines fit arrive whole. */
  lemma FaultsStaySeparate(mtus: seq<nat>, steps: seq<Step>, s: State, b: nat)
    requires Reached(mtus, steps, s) && s.reader.Returned? && b < |mtus|
    ensures b < |s.sent| && |s.sent[b]| == |Parsed(Reads(steps))|
    ensures forall i :: 0 <= i < |s.sent[b]| ==>
              var data := Parsed(Reads(steps))[i];
              && Got(s.sent[b][i], Packets(data, mtus[b]), Fault(b, i) in s.faults)
              && (LinesFit(data, mtus[b]) && Fault(b, i) !in s.faults ==> Flatten(s.sent[b][i]) == data)
  {
    ReadsConserved(mtus, steps, s);
    DrainedOnReturn(mtus, steps, s);
    assert s.done + [] == s.done && SentInv(mtus, s, b);
    forall i | 0 <= i < |s.sent[b]| && LinesFit(Parsed(s.done)[i], mtus[b]) && Fault(b, i) !in s.faults
      ensures Flatten(s.sent[b][i]) == Parsed(s.done)[i]
    {
      SentWhole(mtus[b], s.sent[b][i], Parsed(s.done)[i]);
    }
  }

  lemma {:induction false} SentJoin(sent: seq<seq<Bytes>>, all: seq<Bytes>)
    requires |sent| == |all| && forall i :: 0 <= i < |all| ==> Flatten(sent[i]) == all[i]
    ensures Flatten(Flatten(sent)) == Flatten(all)
  {
    if sent != [] {
      SentJoin(sent[1..], all[1..]);
      FlattenConcat(sent[0], Flatten(sent[1..]));
    }
  }

  /** Whatever happens at the others, a backend without socket faults whose mtu fits every
      line has received, when `Run` returns, exactly the bytes of everything read that
      parsed, in order. */
  lemma LosslessEndToEnd(mtus: seq<nat>, steps: seq<Step>, s: State, b: nat)
    requires Reached(mtus, steps, s) && s.reader.Returned? && b < |mtus|
    requires forall i :: Fault(b, i) !in s.faults
    requires forall data :: data in Parsed(Reads(steps)) ==> LinesFit(data, mtus[b])
    ensures b < |s.sent| && Flatten(Flatten(s.sent[b])) == Flatten(Parsed(Reads(steps)))
  {
    FaultsStaySeparate(mtus, steps, s, b);
    SentJoin(s.sent[b], Parsed(Reads(steps)));
  }

  // ---------------------------------------------------------------- every stream gets through

  /** Between two payloads: the queue is empty and no write has failed. */
  ghost predicate Quiet(mtus: seq<nat>, steps: seq<Step>, s: State) {
    && Reached(mtus, steps, s) && |s.sent| == |mtus|
    && s.reader.Reading? && s.worker.Taking? && s.queue == [] && !s.closed && s.wg == 0 && s.faults == {}
  }

  /** The worker posts to the backends it has not posted to yet. */
  lemma {:induction false} PostsAll(mtus: seq<nat>, steps: seq<Step>, s: State)
    returns (steps': seq<Step>, s': State)
    requires Reached(mtus, steps, s) && |s.sent| == |mtus| && s.worker.Posting? && s.worker.next <= |mtus|
    ensures Reached(mtus, steps', s') && |s'.sent| == |mtus| && Reads(steps') == Reads(steps)
    ensures Enabled(s', EndPost) && s' == s.(worker := s'.worker, sent := s'.sent)
    decreases |mtus| - s.worker.next
  {
    if s.worker.payload.None? || s.worker.next == |mtus| {
      steps', s' := steps, s;
    } else {
      StepReached(mtus, steps, s, PostNext(None));
      steps', s' := PostsAll(mtus, steps + [PostNext(None)], Apply(mtus, s, PostNext(None)));
    }
  }

  lemma Advance(mtus: seq<nat>, steps: seq<Step>, s: State, step: Step) returns (steps': seq<Step>, s': State)
    requires Reached(mtus, steps, s) && |mtus| == |s.sent| && Enabled(s, step)
    ensures Reached(mtus, steps', s') && s' == Apply(mtus, s, step)
    ensures Reads(steps') == Reads(steps) + (if step.Read? then [step.payload] else [])
  {
    StepReached(mtus, steps, s, step);
    steps', s' := steps + [step], Apply(mtus, s, step);
  }

  /** One payload goes all the way. */
  lemma PassesOn(mtus: seq<nat>, steps: seq<Step>, s: State, payload: Payload)
    returns (steps': seq<Step>, s': State)
    requires Quiet(mtus, steps, s)
    ensures Quiet(mtus, steps', s') && Reads(steps') == Reads(steps) + [payload]
  {
    steps', s' := Advance(mtus, steps, s, Read(payload));
    steps', s' := Advance(mtus, steps', s', Enqueue);
    steps', s' := Advance(mtus, steps', s', Take);
    steps', s' := PostsAll(mtus, steps', s');
    steps', s' := Advance(mtus, steps', s', EndPost);
    steps', s' := Advance(mtus, steps', s', Done);
  }

  lemma {:induction false} PassesAll(mtus: seq<nat>, payloads: seq<Payload>) returns (steps: seq<Step>, s: State)
    ensures Quiet(mtus, steps, s) && Reads(steps) == payloads
  {
    if payloads == [] {
      InitReached(mtus);
      steps, s := [], Init(|mtus|);
    } else {
      var n := |payloads| - 1;
      steps, s := PassesAll(mtus, payloads[..n]);
      steps, s := PassesOn(mtus, steps, s, payloads[n]);
    }
  }

  /** The queue takes up to 1024 payloads while the worker does nothing. */
  lemma {:induction false} QueueFills(mtus: seq<nat>, payloads: seq<Payload>) returns (steps: seq<Step>, s: State)
    requires |payloads| <= 1024
    ensures Reached(mtus, steps, s) && |s.sent| == |mtus| && Reads(steps) == payloads == s.queue
    ensures s.reader.Reading? && s.worker.Taking? && !s.closed
  {
    if payloads == [] {
      InitReached(mtus);
      steps, s := [], Init(|mtus|);
    } else {
      var n := |payloads| - 1;
      steps, s := QueueFills(mtus, payloads[..n]);
      steps, s := Advance(mtus, steps, s, Read(payloads[n]));
      steps, s := Advance(mtus, steps, s, Enqueue);
    }
  }

  /** From there, a failing read makes `Run` return. */
  lemma Finishes(mtus: seq<nat>, steps: seq<Step>, s: State) returns (steps': seq<Step>, s': State)
    requires Quiet(mtus, steps, s)
    ensures Reached(mtus, steps', s') && s'.reader.Returned? && Reads(steps') == Reads(steps)
    ensures |s'.sent| == |mtus| && s'.faults == {}
  {
    steps', s' := Advance(mtus, steps, s, ReadError);
    steps', s' := Advance(mtus, steps', s', CloseQueue);
    steps', s' := Advance(mtus, steps', s', Return);
  }

  /** Any payloads can be read, and then all of them get to every backend whose mtu fits
      their lines. */
  lemma EveryStreamDelivered(mtus: seq<nat>, payloads: seq<Payload>) returns (steps: seq<Step>, s: State)
    ensures Reached(mtus, steps, s) && s.reader.Returned? && Reads(steps) == payloads && |s.sent| == |mtus|
    ensures forall b :: 0 <= b < |mtus| && (forall data :: data in Parsed(payloads) ==> LinesFit(data, mtus[b])) ==>
              Flatten(Flatten(s.sent[b])) == Flatten(Parsed(payloads))
  {
    steps, s := PassesAll(mtus, payloads);
    steps, s := Finishes(mtus, steps, s);
    forall b: nat | b < |mtus| && (forall data :: data in Parsed(payloads) ==> LinesFit(data, mtus[b]))
      ensures Flatten(Flatten(s.sent[b])) == Flatten(Parsed(payloads))
    {
      LosslessEndToEnd(mtus, steps, s, b);
    }
  }
}
