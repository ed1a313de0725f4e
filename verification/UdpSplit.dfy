/** `udpBackend.post`: cutting a payload of lines into packets of at most `mtu` bytes. */
module UdpSplit {
  import opened Basics
  import opened Sums

  const NEWLINE: byte := 10

  /** How a post to a UDP backend ends. Slicing `data[:mtu]` panics for a negative mtu. */
  datatype Ending = Sent | TooLarge | SocketError | Panic

  // ---------------------------------------------------------------- lines

  /** Length of the first line including its terminator; all of an unterminated rest. */
  function FirstLine(data: Bytes): (n: nat)
    ensures n <= |data|
    ensures data != [] ==> n > 0
    ensures forall i :: 0 <= i < n - 1 ==> data[i] != NEWLINE
    ensures 0 < n < |data| ==> data[n - 1] == NEWLINE
  {
    if data == [] then 0
    else if data[0] == NEWLINE then 1
    else 1 + FirstLine(data[1..])
  }

  /** Every line of the payload, terminator included, fits a packet. */
  predicate LinesFit(data: Bytes, mtu: nat) {
    data == [] || (FirstLine(data) <= mtu && LinesFit(data[FirstLine(data)..], mtu))
  }

  predicate EndsLine(piece: Bytes) {
    piece != [] && piece[|piece| - 1] == 10
  }

  // ---------------------------------------------------------------- the loop

  /** Index of the last newline, or -1. */
  method LastIndexByte(data: Bytes) returns (idx: int)
    ensures -1 <= idx < |data|
    ensures idx >= 0 ==> data[idx] == NEWLINE
    ensures forall i :: idx < i < |data| ==> data[i] != NEWLINE
  {
    idx := |data| - 1;
    while idx >= 0 && data[idx] != NEWLINE
      invariant -1 <= idx < |data|
      invariant forall i :: idx < i < |data| ==> data[i] != NEWLINE
    {
      idx := idx - 1;
    }
  }

  /** Where the greedy loop cuts: after the last newline among the first `mtu` bytes, or
      0 if there is none. */
  function Cut(data: Bytes, mtu: nat): (n: nat)
    requires mtu <= |data|
    ensures n <= mtu
    ensures n > 0 ==> data[n - 1] == NEWLINE
    ensures forall i :: n <= i < mtu ==> data[i] != NEWLINE
  {
    if mtu == 0 then 0
    else if data[mtu - 1] == NEWLINE then mtu
    else Cut(data, mtu - 1)
  }

  /** The packets the greedy loop sends while the socket works. */
  function Packets(data: Bytes, mtu: nat): seq<Bytes> {
    if |data| <= mtu then [data]
    else
      var n := Cut(data, mtu);
      if n == 0 then [] else [data[..n]] + Packets(data[n..], mtu)
  }

  /** Whether the loop gets to the end of the payload. */
  predicate Completes(data: Bytes, mtu: nat) {
    |data| <= mtu || (Cut(data, mtu) > 0 && Completes(data[Cut(data, mtu)..], mtu))
  }

  /** Whether the k-th write to the socket succeeds. */
  type Socket = nat -> bool

  /** How `post` ends, given what `Packets` would send: a failing write ends it, with what
      was written before already sent; otherwise everything is sent. */
  ghost predicate EndsAs(packets: seq<Bytes>, ok: bool, socket: Socket, sent: seq<Bytes>, ending: Ending) {
    && sent <= packets
    && (forall k :: 0 <= k < |sent| ==> socket(k))
    && (ending == SocketError <==> exists k :: 0 <= k < |packets| && !socket(k))
    && (ending == SocketError ==> |sent| < |packets| && !socket(|sent|))
    && (ending != SocketError ==> sent == packets && ending == if ok then Sent else TooLarge)
  }

  /** Midway: `sent` is out, `rest` is to be split. */
  ghost predicate Midway(data: Bytes, mtu: nat, socket: Socket, sent: seq<Bytes>, rest: Bytes) {
    && Packets(data, mtu) == sent + Packets(rest, mtu)
    && Completes(data, mtu) == Completes(rest, mtu)
    && forall k :: 0 <= k < |sent| ==> socket(k)
  }

  method Post(data: Bytes, mtu: int, socket: Socket) returns (sent: seq<Bytes>, ending: Ending)
    ensures mtu < 0 ==> ending == Panic && sent == []
    ensures mtu >= 0 ==> EndsAs(Packets(data, mtu), Completes(data, mtu), socket, sent, ending)
  {
    sent := [];
    if mtu < 0 {
      return sent, Panic;
    }
    var rest := data;
    assert Midway(data, mtu, socket, [], data) by {
      assert [] + Packets(data, mtu) == Packets(data, mtu);
    }
    while |rest| > mtu
      invariant Midway(data, mtu, socket, sent, rest)
      decreases |rest|
    {
      var idx := LastIndexByte(rest[..mtu]);
      CutIs(rest, mtu, idx + 1);
      Turn(data, mtu, socket, sent, rest);
      if idx < 0 {
        return sent, TooLarge;
      }
      if !socket(|sent|) {
        return sent, SocketError;
      }
      sent := sent + [rest[..idx + 1]];
      rest := rest[idx + 1..];
    }
    if !socket(|sent|) {
      return sent, SocketError;
    }
    return sent + [rest], Sent;
  }

  /** What one turn of the loop comes to. */
  lemma Turn(data: Bytes, mtu: nat, socket: Socket, sent: seq<Bytes>, rest: Bytes)
    requires |rest| > mtu && Midway(data, mtu, socket, sent, rest)
    ensures var n := Cut(rest, mtu);
            if n == 0 then EndsAs(Packets(data, mtu), Completes(data, mtu), socket, sent, TooLarge)
            else if !socket(|sent|) then EndsAs(Packets(data, mtu), Completes(data, mtu), socket, sent, SocketError)
            else Midway(data, mtu, socket, sent + [rest[..n]], rest[n..])
  {
    var n := Cut(rest, mtu);
    if n == 0 {
      assert sent + [] == sent;
    } else {
      var todo := Packets(rest[n..], mtu);
      assert sent + ([rest[..n]] + todo) == (sent + [rest[..n]]) + todo;
    }
  }

  lemma {:induction false} CutIs(data: Bytes, mtu: nat, n: nat)
    requires n <= mtu <= |data|
    requires n > 0 ==> data[n - 1] == NEWLINE
    requires forall i :: n <= i < mtu ==> data[i] != NEWLINE
    ensures Cut(data, mtu) == n
  {
    if n < mtu {
      CutIs(data, mtu - 1, n);
    }
  }

  // ---------------------------------------------------------------- what is sent

  /** What `Packets` says about the payload: the packets are line-aligned and make up a
      prefix of it; if the loop gives up, the next line does not fit a packet. */
  ghost predicate SendsPrefix(data: Bytes, mtu: nat, packets: seq<Bytes>, ok: bool) {
    && |Flatten(packets)| <= |data| && Flatten(packets) == data[..|Flatten(packets)|]
    && (forall i :: 0 <= i < |packets| ==> |packets[i]| <= mtu)
    && (forall i :: 0 <= i < |packets| - 1 ==> EndsLine(packets[i]))
    && (ok ==> Flatten(packets) == data && packets != [])
    && (!ok ==> FirstLine(data[|Flatten(packets)|..]) > mtu && (packets != [] ==> EndsLine(packets[|packets| - 1])))
  }

  lemma SendsMore(data: Bytes, mtu: nat, n: nat, packets: seq<Bytes>, ok: bool)
    requires 0 < n <= |data| && n <= mtu && data[n - 1] == NEWLINE
    requires SendsPrefix(data[n..], mtu, packets, ok)
    ensures SendsPrefix(data, mtu, [data[..n]] + packets, ok)
  {
    var rest, all := data[n..], [data[..n]] + packets;
    var m := |Flatten(packets)|;
    assert all[1..] == packets;
    assert data[..n] + rest[..m] == data[..n + m];
    assert rest[m..] == data[n + m..];
    if ok {
      assert rest[..m] == rest;
    }
    assert EndsLine(all[0]);
    assert forall i :: 0 < i < |all| ==> all[i] == packets[i - 1];
  }

  lemma {:induction false} SplitSends(data: Bytes, mtu: nat)
    ensures SendsPrefix(data, mtu, Packets(data, mtu), Completes(data, mtu))
  {
    if |data| <= mtu {
      assert Flatten([data]) == data + Flatten([]);
    } else {
      var n := Cut(data, mtu);
      if n == 0 {
        assert data[0..] == data;
      } else {
        SplitSends(data[n..], mtu);
        SendsMore(data, mtu, n, Packets(data[n..], mtu), Completes(data[n..], mtu));
      }
    }
  }

  lemma {:induction false} FirstLineIs(data: Bytes, n: nat)
    requires 0 < n <= |data| && forall i :: 0 <= i < n - 1 ==> data[i] != NEWLINE
    requires data[n - 1] == NEWLINE || n == |data|
    ensures FirstLine(data) == n
  {
    if n > 1 {
      FirstLineIs(data[1..], n - 1);
    }
  }

  /** Cutting after a newline cuts between lines. */
  lemma {:induction false} LinesFitConcat(a: Bytes, b: Bytes, mtu: nat)
    requires EndsLine(a)
    ensures LinesFit(a + b, mtu) <==> LinesFit(a, mtu) && LinesFit(b, mtu)
    decreases |a|
  {
    var n := FirstLine(a);
    var tail := a[n..];
    assert a[n - 1] == NEWLINE;
    FirstLineIs(a + b, n);
    assert (a + b)[n..] == tail + b;
    if tail == [] {
      assert tail + b == b;
    } else {
      LinesFitConcat(tail, b, mtu);
    }
  }

  lemma {:induction false} ShortLinesFit(data: Bytes, mtu: nat)
    requires |data| <= mtu
    ensures LinesFit(data, mtu)
    decreases |data|
  {
    if data != [] {
      ShortLinesFit(data[FirstLine(data)..], mtu);
    }
  }

  /** The loop reaches the end exactly when every line, terminator included, fits. */
  lemma {:induction false} SplitSucceedsExactly(data: Bytes, mtu: nat)
    ensures Completes(data, mtu) <==> LinesFit(data, mtu)
    decreases |data|
  {
    if |data| <= mtu {
      ShortLinesFit(data, mtu);
    } else {
      var n := Cut(data, mtu);
      if n > 0 {
        SplitSucceedsExactly(data[n..], mtu);
        assert data == data[..n] + data[n..];
        LinesFitConcat(data[..n], data[n..], mtu);
        ShortLinesFit(data[..n], mtu);
      }
    }
  }

  // ---------------------------------------------------------------- number of packets

  function Lengths(packets: seq<Bytes>): seq<int> {
    if packets == [] then [] else [|packets[0]|] + Lengths(packets[1..])
  }

  lemma {:induction false} LengthsSum(packets: seq<Bytes>)
    ensures |Lengths(packets)| == |packets| && Sum(Lengths(packets)) == |Flatten(packets)|
    ensures forall i :: 0 <= i < |packets| ==> Lengths(packets)[i] == |packets[i]|
  {
    if packets != [] {
      LengthsSum(packets[1..]);
    }
  }

  /** Two packets in a row together exceed the mtu: the second begins with a line that
      would not have fitted the first. */
  lemma {:induction false} NeighboursExceedMtu(data: Bytes, mtu: nat, i: nat)
    requires i + 1 < |Packets(data, mtu)|
    ensures |Packets(data, mtu)[i]| + |Packets(data, mtu)[i + 1]| > mtu
  {
    var n := Cut(data, mtu);
    var rest := data[n..];
    if i > 0 {
      NeighboursExceedMtu(rest, mtu, i - 1);
    } else if |rest| > mtu {
      var m := Cut(rest, mtu);
      assert rest[m - 1] == data[n + m - 1];
    }
  }

  /** n bytes need at most 2 * floor(n / (mtu + 1)) + 1 packets. */
  lemma PacketBound(data: Bytes, mtu: nat)
    ensures |Packets(data, mtu)| <= 2 * (|data| / (mtu + 1)) + 1
  {
    var s, m := Lengths(Packets(data, mtu)), mtu + 1;
    PacketLengths(data, mtu, s, m);
    PairsBoundSum(s, m);
    Quotient(|s| / 2, m, |data|);
  }

  lemma PacketLengths(data: Bytes, mtu: nat, s: seq<int>, m: nat)
    requires s == Lengths(Packets(data, mtu)) && m == mtu + 1
    ensures |s| == |Packets(data, mtu)| && Sum(s) <= |data|
    ensures forall i :: 0 <= i < |s| ==> s[i] >= 0
    ensures forall i :: 0 <= i < |s| - 1 ==> s[i] + s[i + 1] >= m
  {
    var packets := Packets(data, mtu);
    SplitSends(data, mtu);
    LengthsSum(packets);
    forall i | 0 <= i < |s| - 1
      ensures s[i] + s[i + 1] >= m
    {
      NeighboursExceedMtu(data, mtu, i);
      assert s[i] == |packets[i]| && s[i + 1] == |packets[i + 1]|;
    }
  }

  lemma {:induction false} Quotient(k: nat, m: nat, n: nat)
    requires m > 0 && k * m <= n
    ensures k <= n / m
  {
    var q := n / m;
    assert n < q * m + m;
    assert (q + 1) * m == q * m + m;
  }

  // ---------------------------------------------------------------- greedy is optimal

  /** A way to send the payload: pieces of at most `mtu` bytes, cut after newlines. */
  ghost predicate Partition(pieces: seq<Bytes>, data: Bytes, mtu: nat) {
    && Flatten(pieces) == data
    && (forall i :: 0 <= i < |pieces| ==> |pieces[i]| <= mtu)
    && (forall i :: 0 <= i < |pieces| - 1 ==> EndsLine(pieces[i]))
  }

  /** What is left of a partition after the first `c` bytes is a partition of the rest,
      with no more pieces; with fewer, if `c` covers the first piece. */
  lemma {:induction false} Trim(pieces: seq<Bytes>, data: Bytes, mtu: nat, c: nat) returns (rest: seq<Bytes>)
    requires Partition(pieces, data, mtu) && c < |data|
    ensures Partition(rest, data[c..], mtu)
    ensures |rest| <= |pieces| && (pieces != [] && c >= |pieces[0]| ==> |rest| < |pieces|)
  {
    var p := pieces[0];
    if c < |p| {
      rest := [p[c..]] + pieces[1..];
      assert rest[1..] == pieces[1..];
      assert data[c..] == p[c..] + Flatten(pieces[1..]);
      forall i | 0 <= i < |rest| - 1
        ensures EndsLine(rest[i])
      {
        assert EndsLine(pieces[i]);
      }
    } else {
      var tail := data[|p|..];
      assert Flatten(pieces[1..]) == tail;
      rest := Trim(pieces[1..], tail, mtu, c - |p|);
      assert tail[c - |p|..] == data[c..];
    }
  }

  /** No partition of a non-empty payload has fewer pieces than the greedy one. */
  lemma {:induction false} GreedyIsOptimal(data: Bytes, mtu: nat, pieces: seq<Bytes>)
    requires data != [] && Partition(pieces, data, mtu)
    ensures |Packets(data, mtu)| <= |pieces|
    decreases |data|
  {
    assert pieces != [];
    if |data| > mtu {
      var n, p := Cut(data, mtu), pieces[0];
      assert data == p + Flatten(pieces[1..]);
      assert pieces == [p] || |pieces| >= 2;
      assert EndsLine(p);
      assert data[|p| - 1] == NEWLINE;
      assert |p| <= n;
      var rest := Trim(pieces, data, mtu, n);
      GreedyIsOptimal(data[n..], mtu, rest);
    }
  }

  /** When the greedy loop succeeds, what it sends is such a partition itself. */
  lemma GreedyIsPartition(data: Bytes, mtu: nat)
    requires LinesFit(data, mtu)
    ensures Partition(Packets(data, mtu), data, mtu)
  {
    SplitSucceedsExactly(data, mtu);
    SplitSends(data, mtu);
  }
}
