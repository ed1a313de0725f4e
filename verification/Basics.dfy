/** Values shared by the HTTP and the UDP side of the relay. */
module Basics {

  newtype byte = x: int | 0 <= x < 256

  type Bytes = seq<byte>

  datatype Option<+T> = None | Some(value: T)

  /** What makes two writes mergeable: the normalized query string and the
      Authorization header. */
  datatype Key = Key(query: string, auth: string)

  /** An answer of a backend. `status` is the three-digit HTTP status code. */
  datatype Response = Response(status: nat, body: Bytes)

  /** What one POST to a backend comes to. */
  datatype Outcome = Failed | Answered(resp: Response)

  /** One POST the backend saw, and what came of it. */
  datatype Posted = Posted(key: Key, body: Bytes, outcome: Outcome)

  /** The status class of section 15 of RFC 9110: 2 for 2xx, 4 for 4xx, ... */
  function Class(r: Response): (c: nat)
    ensures 100 * c <= r.status < 100 * (c + 1)
  {
    r.status / 100
  }

  /** What the retry buffer counts as success: an answer that is not a 5xx. */
  predicate Settles(o: Outcome): (settles: bool)
    ensures settles <==> o.Answered? && !(500 <= o.resp.status <= 599)
  {
    o.Answered? && Class(o.resp) != 5
  }

  /** `part` occurs in `whole` as one contiguous block. */
  ghost predicate Contains<T>(whole: seq<T>, part: seq<T>) {
    exists i :: OccursAt(whole, part, i)
  }

  ghost predicate OccursAt<T>(whole: seq<T>, part: seq<T>, i: int) {
    0 <= i <= i + |part| <= |whole| && whole[i..i + |part|] == part
  }

  /** Concatenation of a sequence of sequences. */
  function Flatten<T>(ss: seq<seq<T>>): seq<T> {
    if ss == [] then [] else ss[0] + Flatten(ss[1..])
  }

  lemma {:induction false} FlattenConcat<T>(a: seq<seq<T>>, b: seq<seq<T>>)
    ensures Flatten(a + b) == Flatten(a) + Flatten(b)
  {
    if a == [] {
      assert a + b == b;
    } else {
      FlattenConcat(a[1..], b);
      assert (a + b)[0] == a[0] && (a + b)[1..] == a[1..] + b;
      assert a[0] + (Flatten(a[1..]) + Flatten(b)) == (a[0] + Flatten(a[1..])) + Flatten(b);
    }
  }

  /** Every piece occurs in the concatenation. */
  lemma {:induction false} FlattenContains<T>(ss: seq<seq<T>>, j: nat)
    requires j < |ss|
    ensures Contains(Flatten(ss), ss[j])
  {
    if j == 0 {
      assert OccursAt(ss[0] + Flatten(ss[1..]), ss[0], 0);
    } else {
      FlattenContains(ss[1..], j - 1);
      ContainsAfter(ss[0], Flatten(ss[1..]), ss[j]);
    }
  }

  lemma ContainsAfter<T>(before: seq<T>, whole: seq<T>, part: seq<T>)
    requires Contains(whole, part)
    ensures Contains(before + whole, part)
  {
    var i :| OccursAt(whole, part, i);
    assert OccursAt(before + whole, part, |before| + i);
  }
}
