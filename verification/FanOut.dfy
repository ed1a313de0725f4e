/** How the HTTP handler turns the responses of the backends into its own answer. */
module FanOut {
  import opened Basics

  /** 204, a backend's response passed on, or the relay's own 503. */
  datatype Answer = NoContent | Relayed(resp: Response) | Unavailable

  /** 2xx and 4xx end the wait for further responses. */
  predicate Decisive(r: Response) {
    Class(r) == 2 || Class(r) == 4
  }

  function AnswerTo(r: Response): Answer {
    if Class(r) == 2 then NoContent else Relayed(r)
  }

  /** The answer to these responses, in order of arrival: the earliest decisive one
      decides; without one, the last response is passed on. */
  function Verdict(rs: seq<Response>): Answer {
    var i := FirstDecisive(rs);
    if i < |rs| then AnswerTo(rs[i])
    else if rs == [] then Unavailable
    else Relayed(rs[|rs| - 1])
  }

  function FirstDecisive(rs: seq<Response>): (i: nat)
    ensures i <= |rs|
    ensures forall j :: 0 <= j < i ==> !Decisive(rs[j])
    ensures i < |rs| ==> Decisive(rs[i])
  {
    if rs == [] || Decisive(rs[0]) then 0 else 1 + FirstDecisive(rs[1..])
  }

  /** The receive loop over a channel that will deliver `rs` and is then closed. It
      takes no response after a decisive one. */
  method Collect(rs: seq<Response>) returns (answer: Answer, received: nat)
    ensures answer == Verdict(rs)
    ensures received == (if FirstDecisive(rs) < |rs| then FirstDecisive(rs) + 1 else |rs|)
  {
    var errResponse: Option<Response> := None;
    received := 0;
    while received < |rs|
      invariant received <= |rs|
      invariant FirstDecisive(rs) >= received
      invariant errResponse == (if received == 0 then None else Some(rs[received - 1]))
    {
      var resp := rs[received];
      received := received + 1;
      FirstDecisiveIs(rs, received - 1);
      match Class(resp) {
        case 2 => return NoContent, received;
        case 4 => return Relayed(resp), received;
        case _ => errResponse := Some(resp);
      }
    }
    answer := if errResponse.None? then Unavailable else Relayed(errResponse.value);
  }

  lemma {:induction false} FirstDecisiveIs(rs: seq<Response>, i: nat)
    requires i < |rs| && forall j :: 0 <= j < i ==> !Decisive(rs[j])
    ensures Decisive(rs[i]) ==> FirstDecisive(rs) == i
    ensures !Decisive(rs[i]) ==> FirstDecisive(rs) > i
  {
    if i > 0 {
      FirstDecisiveIs(rs[1..], i - 1);
    }
  }

  /** Once decided, later responses do not matter. */
  lemma {:induction false} VerdictStable(a: seq<Response>, b: seq<Response>)
    requires FirstDecisive(a) < |a|
    ensures FirstDecisive(a + b) == FirstDecisive(a) && Verdict(a + b) == Verdict(a)
  {
    FirstDecisiveIs(a + b, FirstDecisive(a));
  }

  /** This response is decisive, and none before it was. */
  ghost predicate Decides(rs: seq<Response>, i: int) {
    0 <= i < |rs| && IsDecisive(rs[i].status) && forall j :: 0 <= j < i ==> !IsDecisive(rs[j].status)
  }

  predicate IsDecisive(status: nat) {
    200 <= status <= 299 || 400 <= status <= 499
  }

  ghost predicate Undecided(rs: seq<Response>) {
    forall j :: 0 <= j < |rs| ==> !IsDecisive(rs[j].status)
  }

  /** What each kind of answer says about the responses, in both directions. */
  lemma VerdictMeans(rs: seq<Response>, r: Response)
    ensures Verdict(rs) == NoContent <==> exists i :: Decides(rs, i) && 200 <= rs[i].status <= 299
    ensures Verdict(rs) == Unavailable <==> rs == []
    ensures Verdict(rs) == Relayed(r) <==>
            || (exists i :: Decides(rs, i) && 400 <= rs[i].status <= 499 && rs[i] == r)
            || (rs != [] && Undecided(rs) && rs[|rs| - 1] == r)
  {
    var n := FirstDecisive(rs);
    if n < |rs| {
      assert Decides(rs, n);
    }
    forall i | Decides(rs, i)
      ensures i == n
    {
      FirstDecisiveIs(rs, i);
    }
  }
}
