/** Exactly which configurations guarantee that a 204 means a 2xx for the request's own
    bytes: those without a retry buffer. With one, the late read in `add` can report the
    answer to another request's POST. */
module RelayRaces {
  import opened Basics
  import opened BatchList
  import opened FanOut
  import opened RelayMachine
  import opened RelayInvariants
  import opened RelayTheorems
  import RM = RetryMachine
  import RI = RetryInvariants
  import RT = RetryTheorems
  import RR = RetryRaces

  /** Some backend answered 2xx to a POST containing all bytes of the request. */
  ghost predicate Confirmed(s: Relay, r: nat)
    requires r in s.reqs
  {
    exists b, resp :: DeliveredTo(s, r, b, resp) && Class(resp) == 2
  }

  ghost predicate NoContentIsConfirmed(s: Relay) {
    forall r :: r in s.reqs && s.reqs[r].handler == Replied(NoContent) ==> Confirmed(s, r)
  }

  lemma NoRoomNotOvertaken(cfgs: seq<RM.Config>, s: Relay, r: nat)
    requires Reachable(cfgs, s) && r in s.reqs
    requires forall b :: 0 <= b < |cfgs| ==> !HasRoom(cfgs[b])
    ensures NotOvertaken(s, r)
  {
    forall b | 0 <= b < |s.backends| && r in s.backends[b].posts
      ensures !s.backends[b].posts[r].overtaken
    {
      PostCarries(cfgs, s, r, b);
      RI.ReachablePost(cfgs[b], s.backends[b], r);
      RT.WithoutRoom(cfgs[b], s.backends[b]);
    }
  }

  /** A retry buffer that can hold at least a byte, as every configured one can. */
  predicate HasRoom(cfg: RM.Config) {
    cfg.buffered && cfg.maxSize >= 1
  }

  /** Over all runs, a 204 is backed by a 2xx for the request's own bytes exactly when no
      backend has a retry buffer with room. */
  lemma DeliveryExact(cfgs: seq<RM.Config>)
    ensures (forall s :: Reachable(cfgs, s) ==> NoContentIsConfirmed(s))
            <==> forall b :: 0 <= b < |cfgs| ==> !HasRoom(cfgs[b])
  {
    if forall b :: 0 <= b < |cfgs| ==> !HasRoom(cfgs[b]) {
      forall s, r | Reachable(cfgs, s) && r in s.reqs && s.reqs[r].handler == Replied(NoContent)
        ensures Confirmed(s, r)
      {
        NoRoomNotOvertaken(cfgs, s, r);
        var b, resp := ReplyDelivered(cfgs, s, r);
      }
    } else {
      var b :| 0 <= b < |cfgs| && HasRoom(cfgs[b]);
      var s := FalseSuccess(cfgs, b);
    }
  }

  function NewBackends(outputs: seq<RM.Output>): (cfgs: seq<RM.Config>)
    ensures |cfgs| == |outputs| && forall b :: 0 <= b < |outputs| ==> cfgs[b] == RM.NewBackend(outputs[b])
  {
    seq(|outputs|, b requires 0 <= b < |outputs| => RM.NewBackend(outputs[b]))
  }

  /** In terms of the configuration file: a 204 is always backed by a 2xx for the
      request's own bytes exactly when no output sets buffer-size-mb above zero. */
  lemma DeliveryExactForOutputs(outputs: seq<RM.Output>)
    ensures (forall s :: Reachable(NewBackends(outputs), s) ==> NoContentIsConfirmed(s))
            <==> forall b :: 0 <= b < |outputs| ==> outputs[b].bufferSizeMB <= 0
  {
    var cfgs := NewBackends(outputs);
    assert forall b :: 0 <= b < |outputs| ==> HasRoom(cfgs[b]) == (outputs[b].bufferSizeMB > 0);
    DeliveryExact(cfgs);
  }

  // ---------------------------------------------------------------- the run

  const K0: Key := Key("db=a", "")
  const K1: Key := Key("db=b", "")
  const REJECTED: Response := Response(400, [])
  const OK: Response := Response(204, [])

  /** The handler spawns the goroutines it has not spawned yet. */
  lemma {:induction false} SpawnAll(cfgs: seq<RM.Config>, s: Relay, r: nat) returns (s': Relay)
    requires Reachable(cfgs, s) && |s.backends| == |cfgs|
    requires r in s.reqs && s.reqs[r].handler.Spawning? && |s.reqs[r].gos| == |cfgs|
    requires s.reqs[r].handler.next <= |cfgs|
    requires forall b :: 0 <= b < s.reqs[r].handler.next ==> s.reqs[r].gos[b] == Spawned
    ensures Reachable(cfgs, s')
    ensures s' == s.(reqs := s.reqs[r := s.reqs[r].(gos := seq(|cfgs|, _ => Spawned), handler := Spawning(|cfgs|))])
    decreases |cfgs| - s.reqs[r].handler.next
  {
    if s.reqs[r].handler.next == |cfgs| {
      assert s.reqs[r].gos == seq(|cfgs|, _ => Spawned);
      s' := s;
    } else {
      StepReachable(cfgs, s, Spawn(r));
      var t := Apply(cfgs, s, Spawn(r));
      s' := SpawnAll(cfgs, t, r);
    }
  }

  /** A request arrives and its goroutine for backend `b` begins its post. */
  lemma BeginAt(cfgs: seq<RM.Config>, s: Relay, r: nat, k: Key, data: Bytes, buf: nat, b: nat) returns (s': Relay)
    requires Reachable(cfgs, s) && |s.backends| == |cfgs| && b < |cfgs|
    requires r !in s.reqs && buf !in s.heap && r !in s.backends[b].posts
    ensures Reachable(cfgs, s')
    ensures var gos := seq(|cfgs|, _ => Spawned)[b := InPost];
            && s'.reqs == s.reqs[r := Request(k, data, buf, gos, |cfgs|, [], 0, false, AwaitingAll, 0, Receiving(None))]
            && s'.heap == s.heap[buf := data]
            && s'.backends == s.backends[b :=
                 s.backends[b].(posts := s.backends[b].posts[r := RM.Post(Write(r, buf, data), k, RM.Started, false)])]
  {
    StepReachable(cfgs, s, Arrive(r, k, data, buf));
    s' := Apply(cfgs, s, Arrive(r, k, data, buf));
    s' := SpawnAll(cfgs, s', r);
    StepReachable(cfgs, s', SpawnCloser(r));
    s' := Apply(cfgs, s', SpawnCloser(r));
    StepReachable(cfgs, s', Enter(r, b));
    s' := Apply(cfgs, s', Enter(r, b));
  }

  /** A stretch of steps inside one backend is a stretch of the relay. */
  lemma {:induction false} PathInside(cfgs: seq<RM.Config>, s: Relay, b: nat, path: seq<RM.State>, i: nat)
    requires Reachable(cfgs, s) && |s.backends| == |cfgs| && b < |cfgs|
    requires RM.IsPath(cfgs[b], s.heap, path) && path[0] == s.backends[b] && i < |path|
    ensures Reachable(cfgs, s.(backends := s.backends[b := path[i]]))
  {
    if i == 0 {
      assert s.backends[b := path[0]] == s.backends;
    } else {
      PathInside(cfgs, s, b, path, i - 1);
      var t := s.(backends := s.backends[b := path[i - 1]]);
      assert RM.Moves(cfgs[b], s.heap, path[i - 1], path[i - 1 + 1]);
      var step: RM.Step :| !step.Begin? && RM.Enabled(path[i - 1], step, s.heap)
                           && path[i] == RM.Apply(cfgs[b], path[i - 1], step, s.heap);
      StepReachable(cfgs, t, Inside(b, step));
      assert t.backends[b := path[i]] == s.backends[b := path[i]];
    }
  }

  lemma LeadsInside(cfgs: seq<RM.Config>, s: Relay, b: nat, st: RM.State)
    requires Reachable(cfgs, s) && |s.backends| == |cfgs| && b < |cfgs|
    requires RM.Leads(cfgs[b], s.heap, s.backends[b], st)
    ensures Reachable(cfgs, s.(backends := s.backends[b := st]))
  {
    var path :| RM.IsPath(cfgs[b], s.heap, path) && path[0] == s.backends[b] && path[|path| - 1] == st;
    PathInside(cfgs, s, b, path, |path| - 1);
  }

  /** Two requests of different databases have begun to post to backend `b`. */
  lemma BothBegun(cfgs: seq<RM.Config>, b: nat) returns (s: Relay)
    requires b < |cfgs|
    ensures Reachable(cfgs, s) && |s.backends| == |cfgs|
    ensures forall c :: 0 <= c < |cfgs| && c != b ==> s.backends[c] == RM.Init()
    ensures s.backends[b] == RR.Begun(map[0 := RM.Post(Write(0, 0, [0]), K0, RM.Started, false),
                                          1 := RM.Post(Write(1, 1, [0]), K1, RM.Started, false)])
    ensures s.heap == map[0 := [0], 1 := [0]]
    ensures 0 in s.reqs
    ensures s.reqs[0] == Request(K0, [0], 0, seq(|cfgs|, _ => Spawned)[b := InPost], |cfgs|, [], 0, false,
                                 AwaitingAll, 0, Receiving(None))
  {
    InitReachable(cfgs);
    s := BeginAt(cfgs, Init(|cfgs|), 0, K0, [0], 0, b);
    s := BeginAt(cfgs, s, 1, K1, [0], 1, b);
    assert s.backends[b].posts == map[0 := RM.Post(Write(0, 0, [0]), K0, RM.Started, false),
                                      1 := RM.Post(Write(1, 1, [0]), K1, RM.Started, false)];
  }

  /** The handler of request 0 replies with whatever its post at `b` returned. */
  lemma RepliesNoContent(cfgs: seq<RM.Config>, s: Relay, b: nat, resp: Response) returns (s': Relay)
    requires Reachable(cfgs, s) && |s.backends| == |cfgs| && b < |cfgs|
    requires PostReturned(s, 0, b, resp) && Class(resp) == 2
    requires 0 in s.reqs
    requires s.reqs[0] == Request(K0, [0], 0, seq(|cfgs|, _ => Spawned)[b := InPost], |cfgs|, [], 0, false,
                                  AwaitingAll, 0, Receiving(None))
    ensures Reachable(cfgs, s') && s'.backends == s.backends
    ensures 0 in s'.reqs && s'.reqs[0].handler == Replied(NoContent)
    ensures s'.reqs[0].key == K0 && s'.reqs[0].data == [0]
  {
    StepReachable(cfgs, s, Leave(0, b));
    s' := Apply(cfgs, s, Leave(0, b));
    StepReachable(cfgs, s', Send(0, b));
    s' := Apply(cfgs, s', Send(0, b));
    StepReachable(cfgs, s', Receive(0));
    s' := Apply(cfgs, s', Receive(0));
  }

  /** The client is told 204 while the only answer its bytes ever got is a 400. */
  lemma FalseSuccess(cfgs: seq<RM.Config>, b: nat) returns (s: Relay)
    requires b < |cfgs| && cfgs[b].buffered && cfgs[b].maxSize >= 1
    ensures Reachable(cfgs, s) && 0 in s.reqs && s.reqs[0].handler == Replied(NoContent)
    ensures !Confirmed(s, 0)
  {
    var s0 := BothBegun(cfgs, b);
    var st := RR.WrongAnswerPath(cfgs[b], Write(0, 0, [0]), K0, Write(1, 1, [0]), K1, REJECTED, OK, s0.heap);
    LeadsInside(cfgs, s0, b, st);
    s := RepliesNoContent(cfgs, s0.(backends := s0.backends[b := st]), b, OK);
    assert K0.query[3] != K1.query[3];
    forall c: nat, resp | DeliveredTo(s, 0, c, resp)
      ensures Class(resp) == 4
    {
      var e :| e in s.backends[c].log && e.key == K0 && e.outcome == Answered(resp);
      assert c == b;
    }
  }

  // ---------------------------------------------------------------- relayed 5xx

  /** A relayed 5xx means that every backend answered with a 5xx. */
  ghost predicate ServerErrorsAgree(s: Relay) {
    forall r, b :: r in s.reqs && RelaysServerError(s.reqs[r]) && 0 <= b < |s.backends| ==> AnsweredServerError(s, r, b)
  }

  predicate RelaysServerError(q: Request) {
    q.handler.Replied? && q.handler.answer.Relayed? && Class(q.handler.answer.resp) == 5
  }

  predicate AnsweredServerError(s: Relay, r: nat, b: nat) {
    && b < |s.backends| && r in s.backends[b].posts
    && s.backends[b].posts[r].pc.Returned? && s.backends[b].posts[r].pc.result.Got?
    && Class(s.backends[b].posts[r].pc.result.resp) == 5
  }

  /** Over all runs that holds exactly when there is at most one backend, or every backend
      is buffered, so that no 5xx is relayed at all. */
  lemma ServerErrorExact(cfgs: seq<RM.Config>)
    ensures (forall s :: Reachable(cfgs, s) ==> ServerErrorsAgree(s)) <==> |cfgs| <= 1 || AllBuffered(cfgs)
  {
    if |cfgs| <= 1 || AllBuffered(cfgs) {
      forall s, r, b: nat | Reachable(cfgs, s) && r in s.reqs && RelaysServerError(s.reqs[r]) && b < |s.backends|
        ensures AnsweredServerError(s, r, b)
      {
        ErrorFromOnly(cfgs, s, r, b);
      }
    } else {
      var b: nat :| b < |cfgs| && !cfgs[b].buffered;
      var s := MixedAnswers(cfgs, b);
    }
  }

  lemma ErrorFromOnly(cfgs: seq<RM.Config>, s: Relay, r: nat, b: nat)
    requires |cfgs| <= 1 || AllBuffered(cfgs)
    requires Reachable(cfgs, s) && r in s.reqs && RelaysServerError(s.reqs[r]) && b < |s.backends|
    ensures AnsweredServerError(s, r, b)
  {
    ReachableRequest(cfgs, s, r);
    var c, resp := ReplyFromBackend(cfgs, s, r);
    if AllBuffered(cfgs) {
      BufferedNeverRelays5xx(cfgs, s, r);
    }
  }

  const REDIRECT: Response := Response(304, [])
  const SERVER_ERROR: Response := Response(500, [])

  /** Request 0 with some of its goroutines gone and the others about to start. */
  ghost predicate Underway(cfgs: seq<RM.Config>, s: Relay, served: set<nat>) {
    && Reachable(cfgs, s) && |s.backends| == |cfgs|
    && s.reqs.Keys == {0} && |s.reqs[0].gos| == |cfgs|
    && !s.reqs[0].closer.Ended? && s.reqs[0].data != []
    && (forall c :: 0 <= c < |cfgs| && c in served ==> s.reqs[0].gos[c] == Gone(true))
    && (forall c :: 0 <= c < |cfgs| && c !in served ==> s.reqs[0].gos[c] == Spawned && s.backends[c] == RM.Init())
  }

  /** One more goroutine begins its post. */
  lemma EntersOne(cfgs: seq<RM.Config>, s: Relay, served: set<nat>, c: nat) returns (t: Relay)
    requires Underway(cfgs, s, served) && c < |cfgs| && c !in served
    ensures Reachable(cfgs, t)
    ensures t.reqs == s.reqs[0 := s.reqs[0].(gos := s.reqs[0].gos[c := InPost])]
    ensures var q := s.reqs[0];
            t.backends == s.backends[c := RM.Init().(posts :=
              map[0 := RM.Post(Write(0, q.buf, q.data), q.key, RM.Started, false)])]
  {
    StepReachable(cfgs, s, Enter(0, c));
    t := Apply(cfgs, s, Enter(0, c));
  }

  lemma StillUnderway(cfgs: seq<RM.Config>, s: Relay, s': Relay, served: set<nat>, c: nat)
    requires Underway(cfgs, s, served) && c < |cfgs|
    requires Reachable(cfgs, s') && s'.reqs.Keys == {0} && |s'.backends| == |cfgs|
    requires s'.reqs[0].gos == s.reqs[0].gos[c := Gone(true)]
    requires !s'.reqs[0].closer.Ended? && s'.reqs[0].data != []
    requires forall d :: 0 <= d < |cfgs| && d != c ==> s'.backends[d] == s.backends[d]
    ensures Underway(cfgs, s', served + {c})
  {
  }

  /** One goroutine runs from start to end, its backend answering directly. */
  lemma ServeOne(cfgs: seq<RM.Config>, s: Relay, served: set<nat>, c: nat, resp: Response) returns (s': Relay)
    requires Underway(cfgs, s, served) && c < |cfgs| && c !in served
    requires !cfgs[c].buffered || Class(resp) != 5
    ensures Underway(cfgs, s', served + {c})
    ensures s'.reqs[0].arrivals == s.reqs[0].arrivals + [Arrival(c, resp)]
    ensures PostReturned(s', 0, c, resp)
    ensures forall d, r :: d != c && PostReturned(s, 0, d, r) ==> PostReturned(s', 0, d, r)
  {
    assert 0 in s.reqs;
    var q := s.reqs[0];
    var t := EntersOne(cfgs, s, served, c);
    var st := PostDirectly(cfgs, t, c, Write(0, q.buf, q.data), q.key, resp);
    LeadsInside(cfgs, t, c, st);
    t := t.(backends := t.backends[c := st]);
    s' := Departs(cfgs, t, c, resp);
    assert s'.backends == s.backends[c := st];
    assert s'.reqs[0].gos == q.gos[c := Gone(true)];
    StillUnderway(cfgs, s, s', served, c);
  }

  /** The post at a backend that answers the direct POST. */
  lemma PostDirectly(cfgs: seq<RM.Config>, s: Relay, c: nat, w: Write, k: Key, resp: Response) returns (st: RM.State)
    requires Reachable(cfgs, s) && c < |cfgs| == |s.backends|
    requires s.backends[c] == RM.Init().(posts := map[0 := RM.Post(w, k, RM.Started, false)])
    requires !cfgs[c].buffered || Class(resp) != 5
    ensures RM.Leads(cfgs[c], s.heap, s.backends[c], st)
    ensures 0 in st.posts && st.posts[0].pc == RM.Returned(RM.Got(resp), None)
  {
    BackendStable(cfgs, s, c);
    var cfg, s0 := cfgs[c], s.backends[c];
    assert 0 in s0.posts && w.buf in s.heap;
    RM.LeadsSelf(cfg, s.heap, s0);
    RM.LeadsStep(cfg, s.heap, s0, s0, RM.Load(0));
    st := RM.Apply(cfg, s0, RM.Load(0), s.heap);
    RM.LeadsStep(cfg, s.heap, s0, st, RM.DirectPost(0, Answered(resp)));
    st := RM.Apply(cfg, st, RM.DirectPost(0, Answered(resp)), s.heap);
  }

  /** A goroutine whose post has returned a response sends it and is gone. */
  lemma Departs(cfgs: seq<RM.Config>, s: Relay, c: nat, resp: Response) returns (s': Relay)
    requires Reachable(cfgs, s) && |s.backends| == |cfgs| && c < |cfgs|
    requires 0 in s.reqs && |s.reqs[0].gos| == |cfgs| && s.reqs[0].gos[c] == InPost
    requires PostReturned(s, 0, c, resp)
    ensures Reachable(cfgs, s') && s'.backends == s.backends
    ensures s'.reqs.Keys == s.reqs.Keys && s'.reqs[0].gos == s.reqs[0].gos[c := Gone(true)]
    ensures s'.reqs[0].closer == s.reqs[0].closer && s'.reqs[0].data == s.reqs[0].data
    ensures s'.reqs[0].arrivals == s.reqs[0].arrivals + [Arrival(c, resp)]
  {
    StepReachable(cfgs, s, Leave(0, c));
    s' := Apply(cfgs, s, Leave(0, c));
    SendNeverBlocks(cfgs, s', 0, c);
    StepReachable(cfgs, s', Send(0, c));
    s' := Apply(cfgs, s', Send(0, c));
    StepReachable(cfgs, s', Exit(0, c));
    s' := Apply(cfgs, s', Exit(0, c));
  }

  /** All backends from `i` on, except `b`, answer with a redirect. */
  lemma {:induction false} ServeOthers(cfgs: seq<RM.Config>, s: Relay, served: set<nat>, b: nat, i: nat)
    returns (s': Relay, served': set<nat>)
    requires Underway(cfgs, s, served) && b < |cfgs| && i <= |cfgs|
    requires forall c :: 0 <= c < |cfgs| ==> (c in served <==> c < i && c != b)
    requires forall j :: 0 <= j < |s.reqs[0].arrivals| ==> s.reqs[0].arrivals[j].resp == REDIRECT
    requires forall c :: 0 <= c < i && c != b ==> PostReturned(s, 0, c, REDIRECT)
    ensures Underway(cfgs, s', served')
    ensures forall c :: 0 <= c < |cfgs| ==> (c in served' <==> c != b)
    ensures forall j :: 0 <= j < |s'.reqs[0].arrivals| ==> s'.reqs[0].arrivals[j].resp == REDIRECT
    ensures forall c :: 0 <= c < |cfgs| && c != b ==> PostReturned(s', 0, c, REDIRECT)
    decreases |cfgs| - i
  {
    if i == |cfgs| {
      s', served' := s, served;
    } else if i == b {
      s', served' := ServeOthers(cfgs, s, served, b, i + 1);
    } else {
      var t := ServeOne(cfgs, s, served, i, REDIRECT);
      s', served' := ServeOthers(cfgs, t, served + {i}, b, i + 1);
    }
  }

  /** All of request 0's goroutines are about to start. */
  lemma AllSpawned(cfgs: seq<RM.Config>) returns (s: Relay)
    ensures Underway(cfgs, s, {}) && s.reqs[0].arrivals == []
  {
    InitReachable(cfgs);
    s := Init(|cfgs|);
    StepReachable(cfgs, s, Arrive(0, K0, [0], 0));
    s := Apply(cfgs, s, Arrive(0, K0, [0], 0));
    s := SpawnAll(cfgs, s, 0);
    StepReachable(cfgs, s, SpawnCloser(0));
    s := Apply(cfgs, s, SpawnCloser(0));
  }

  /** Every backend but an unbuffered one redirects, that one answers 500 last, and the
      client gets the 500. */
  lemma MixedAnswers(cfgs: seq<RM.Config>, b: nat) returns (s: Relay)
    requires |cfgs| >= 2 && b < |cfgs| && !cfgs[b].buffered
    ensures Reachable(cfgs, s) && 0 in s.reqs && s.reqs[0].handler == Replied(Relayed(SERVER_ERROR))
    ensures !ServerErrorsAgree(s)
  {
    var t := AllSpawned(cfgs);
    var served;
    t, served := ServeOthers(cfgs, t, {}, b, 0);
    var u := ServeOne(cfgs, t, served, b, SERVER_ERROR);
    s := RequestRunsToEnd(cfgs, u, 0);
    ReplyIsVerdict(cfgs, s, 0);
    LastIsServerError(t.reqs[0].arrivals, b);
    var other := if b == 0 then 1 else 0;
    assert PostReturned(t, 0, other, REDIRECT);
    assert PostReturned(s, 0, other, REDIRECT);
    assert !AnsweredServerError(s, 0, other);
  }

  lemma {:induction false} LastIsServerError(arrivals: seq<Arrival>, b: nat)
    requires forall j :: 0 <= j < |arrivals| ==> arrivals[j].resp == REDIRECT
    ensures Verdict(Resps(arrivals + [Arrival(b, SERVER_ERROR)])) == Relayed(SERVER_ERROR)
  {
    var all := arrivals + [Arrival(b, SERVER_ERROR)];
    var rs := Resps(all);
    RespsIndex(all);
    forall j | 0 <= j < |rs|
      ensures !Decisive(rs[j])
    {
      assert rs[j] == all[j].resp;
    }
    assert rs[|rs| - 1] == SERVER_ERROR && FirstDecisive(rs) == |rs|;
  }

  // ---------------------------------------------------------------- reuse of buffers

  /** Request 0 has been served by every backend, and all its goroutines are gone. */
  lemma AllServed(cfgs: seq<RM.Config>) returns (s: Relay)
    ensures Reachable(cfgs, s) && |s.backends| == |cfgs| && s.reqs.Keys == {0} && !s.reqs[0].closer.Ended?
    ensures s.reqs[0].data != [] && forall b :: 0 <= b < |s.reqs[0].gos| ==> s.reqs[0].gos[b].Gone?
  {
    var t := AllSpawned(cfgs);
    if cfgs == [] {
      s := t;
    } else {
      var u, served := ServeOthers(cfgs, t, {}, 0, 0);
      s := ServeOne(cfgs, u, served, 0, REDIRECT);
    }
  }

  /** The buffer of a finished request is used again, whatever the next one brings. */
  lemma BufferReused(cfgs: seq<RM.Config>, k: Key, data: Bytes) returns (s: Relay)
    ensures Reachable(cfgs, s) && s.reqs.Keys == {0, 1}
    ensures s.reqs[0].closer.Ended? && s.reqs[0].data != [] && !s.reqs[1].closer.Ended?
    ensures s.reqs[1].key == k && s.reqs[1].data == data && s.reqs[1].buf == s.reqs[0].buf
  {
    var t := AllServed(cfgs);
    var u := RequestRunsToEnd(cfgs, t, 0);
    StepReachable(cfgs, u, Arrive(1, k, data, u.reqs[0].buf));
    s := Apply(cfgs, u, Arrive(1, k, data, u.reqs[0].buf));
  }
}
