/** The queue of batches as a value: what `bufferList.add` does to the sequence of
    queued batches, and what that keeps. */
module BatchList {
  import opened Basics
  import opened Sums

  /** One accepted `post`. `req` names the request, `buf` the pooled buffer its bytes
      live in, and `data` what the buffer held when the request handed it over. The
      list looks only at the length of `data`; the bytes that are eventually sent
      are read from the buffer. */
  datatype Write = Write(req: nat, buf: nat, data: Bytes)

  /** The fields of a queued batch; `wg` is the counter of its WaitGroup. */
  datatype Batch = Batch(key: Key, bufs: seq<Write>, size: int, full: bool, wg: int, resp: Option<Response>)

  function NewBatch(w: Write, k: Key): Batch {
    Batch(k, [w], |w.data|, false, 1, None)
  }

  function Join(b: Batch, w: Write): Batch {
    b.(bufs := b.bufs + [w], size := b.size + |w.data|)
  }

  predicate Skips(b: Batch, k: Key) {
    b.key != k || b.full
  }

  predicate Overflows(b: Batch, w: Write, maxBatch: int) {
    b.size + |w.data| > maxBatch
  }

  /** The walk of `add` goes past this batch. */
  predicate Passes(b: Batch, w: Write, k: Key, maxBatch: int) {
    Skips(b, k) || Overflows(b, w, maxBatch)
  }

  /** The queue after adding `w`. */
  function Insert(list: seq<Batch>, w: Write, k: Key, maxBatch: int): seq<Batch> {
    if list == [] then [NewBatch(w, k)]
    else if Skips(list[0], k) then [list[0]] + Insert(list[1..], w, k, maxBatch)
    else if Overflows(list[0], w, maxBatch) then
      [list[0].(full := true)] + Insert(list[1..], w, k, maxBatch)
    else [Join(list[0], w)] + list[1..]
  }

  /** The position of the batch that took `w`. */
  function Slot(list: seq<Batch>, w: Write, k: Key, maxBatch: int): nat {
    if list == [] then 0
    else if Passes(list[0], w, k, maxBatch) then 1 + Slot(list[1..], w, k, maxBatch)
    else 0
  }

  function Datas(ws: seq<Write>): seq<Bytes> {
    if ws == [] then [] else [ws[0].data] + Datas(ws[1..])
  }

  /** The body of the POST that carries these writes. */
  function Body(ws: seq<Write>): Bytes {
    Flatten(Datas(ws))
  }

  function Sizes(list: seq<Batch>): seq<int> {
    if list == [] then [] else [list[0].size] + Sizes(list[1..])
  }

  /** All writes of one key, in list order. */
  function Stream(list: seq<Batch>, k: Key): seq<Write> {
    if list == [] then []
    else (if list[0].key == k then list[0].bufs else []) + Stream(list[1..], k)
  }

  predicate HasKey(list: seq<Batch>, k: Key) {
    list != [] && (list[0].key == k || HasKey(list[1..], k))
  }

  /** A queued batch is full exactly when a later queued batch has its key. */
  predicate Sealed(list: seq<Batch>) {
    list == [] ||
    (Sealed(list[1..]) && (list[0].full <==> HasKey(list[1..], list[0].key)))
  }

  /** The first batch of a key. */
  function FirstOf(list: seq<Batch>, k: Key): Option<Batch> {
    if list == [] then None
    else if list[0].key == k then Some(list[0])
    else FirstOf(list[1..], k)
  }

  /** Next-fit packing: a batch is within `maxBatch` or a single write, and it could
      not have taken the write that opened the next batch of its key. */
  predicate Packed(list: seq<Batch>, maxBatch: int) {
    list == [] ||
    (Packed(list[1..], maxBatch) &&
     WellFormed(list[0]) &&
     (list[0].size <= maxBatch || |list[0].bufs| == 1) &&
     var next := FirstOf(list[1..], list[0].key);
     next.Some? ==> next.value.bufs != [] && Overflows(list[0], next.value.bufs[0], maxBatch))
  }

  predicate WellFormed(b: Batch) {
    b.bufs != [] && b.size == |Body(b.bufs)|
  }

  // ---------------------------------------------------------------- bodies

  lemma {:induction false} DatasIndex(ws: seq<Write>)
    ensures |Datas(ws)| == |ws|
    ensures forall i :: 0 <= i < |ws| ==> Datas(ws)[i] == ws[i].data
  {
    if ws != [] {
      DatasIndex(ws[1..]);
      forall i | 0 <= i < |ws|
        ensures Datas(ws)[i] == ws[i].data
      {
        if i > 0 {
          assert Datas(ws)[i] == Datas(ws[1..])[i - 1];
        }
      }
    }
  }

  lemma BodyAppend(ws: seq<Write>, w: Write)
    ensures Body(ws + [w]) == Body(ws) + w.data
  {
    DatasIndex(ws);
    DatasIndex(ws + [w]);
    assert Datas(ws + [w]) == Datas(ws) + [w.data];
    FlattenConcat(Datas(ws), [w.data]);
    assert Flatten([w.data]) == w.data;
  }

  lemma BodyConcat(a: seq<Write>, b: seq<Write>)
    ensures Body(a + b) == Body(a) + Body(b)
  {
    DatasIndex(a);
    DatasIndex(b);
    DatasIndex(a + b);
    assert Datas(a + b) == Datas(a) + Datas(b);
    FlattenConcat(Datas(a), Datas(b));
  }

  /** The body of a batch carries every one of its writes as one block. */
  lemma BodyContains(ws: seq<Write>, w: Write)
    requires w in ws
    ensures Contains(Body(ws), w.data)
  {
    var j :| 0 <= j < |ws| && ws[j] == w;
    DatasIndex(ws);
    FlattenContains(Datas(ws), j);
  }

  // ---------------------------------------------------------------- shape of Insert

  /** A batch the walk has gone past: of the write's key it is full now. */
  function Passed(b: Batch, k: Key): Batch {
    b.(full := b.full || b.key == k)
  }

  /** Existing batches keep their place and key and at most grow at their end; only
      the batch at `Slot` changes its writes; a new batch appears only at the tail. */
  lemma {:induction false} InsertShape(list: seq<Batch>, w: Write, k: Key, maxBatch: int)
    ensures var r, at := Insert(list, w, k, maxBatch), Slot(list, w, k, maxBatch);
            && at <= |list|
            && |r| == (if at == |list| then |list| + 1 else |list|)
            && (at == |list| ==> r[at] == NewBatch(w, k))
            && (at < |list| ==> list[at].key == k && !list[at].full && r[at] == Join(list[at], w))
            && (forall i :: 0 <= i < at ==> r[i] == Passed(list[i], k))
            && (forall i :: at < i < |list| ==> r[i] == list[i])
  {
    if list != [] && Passes(list[0], w, k, maxBatch) {
      InsertShape(list[1..], w, k, maxBatch);
    }
  }

  /** The walk stops at `Slot`. */
  lemma {:induction false} SlotUnique(list: seq<Batch>, w: Write, k: Key, maxBatch: int, at: nat)
    requires at <= |list|
    requires forall i :: 0 <= i < at ==> Passes(list[i], w, k, maxBatch)
    requires at < |list| ==> !Passes(list[at], w, k, maxBatch)
    ensures Slot(list, w, k, maxBatch) == at
  {
    if at > 0 {
      SlotUnique(list[1..], w, k, maxBatch, at - 1);
    }
  }

  /** The batch at `Slot` can take the write. */
  lemma {:induction false} SlotFits(list: seq<Batch>, w: Write, k: Key, maxBatch: int)
    ensures var at := Slot(list, w, k, maxBatch);
            at <= |list| && (at < |list| ==> !Passes(list[at], w, k, maxBatch))
  {
    if list != [] && Passes(list[0], w, k, maxBatch) {
      SlotFits(list[1..], w, k, maxBatch);
    }
  }

  /** `Insert` and `Slot` are the only answer with this shape. */
  lemma InsertByShape(list: seq<Batch>, r: seq<Batch>, w: Write, k: Key, maxBatch: int, at: nat)
    requires at <= |list| && |r| == (if at == |list| then |list| + 1 else |list|)
    requires forall i :: 0 <= i < at ==> Passes(list[i], w, k, maxBatch)
    requires forall i :: 0 <= i < at ==> r[i] == Passed(list[i], k)
    requires at < |list| ==> !Passes(list[at], w, k, maxBatch) && r[at] == Join(list[at], w)
    requires at == |list| ==> r[at] == NewBatch(w, k)
    requires forall i :: at < i < |list| ==> r[i] == list[i]
    ensures Slot(list, w, k, maxBatch) == at && Insert(list, w, k, maxBatch) == r
  {
    SlotUnique(list, w, k, maxBatch, at);
    InsertShape(list, w, k, maxBatch);
  }

  lemma {:induction false} HasKeyIndex(list: seq<Batch>, k: Key)
    ensures HasKey(list, k) <==> exists i :: 0 <= i < |list| && list[i].key == k
  {
    if list != [] {
      HasKeyIndex(list[1..], k);
      if i :| 0 <= i < |list| && list[i].key == k && i != 0 {
        assert list[1..][i - 1].key == k;
      }
    }
  }

  /** `Sealed` read off by position: for each key exactly the last queued batch is
      open to further writes. */
  lemma {:induction false} SealedIndex(list: seq<Batch>)
    ensures Sealed(list) <==>
            forall i :: 0 <= i < |list| ==>
              (list[i].full <==> exists j :: i < j < |list| && list[j].key == list[i].key)
  {
    if list != [] {
      SealedIndex(list[1..]);
      HasKeyIndex(list[1..], list[0].key);
      forall i | 1 <= i < |list|
        ensures (exists j :: i < j < |list| && list[j].key == list[i].key) <==>
                (exists j :: i - 1 < j < |list| - 1 && list[1..][j].key == list[1..][i - 1].key)
      {
        forall j | i < j < |list| && list[j].key == list[i].key
          ensures list[1..][j - 1].key == list[1..][i - 1].key
        {
        }
      }
      forall j | 0 < j < |list| && list[j].key == list[0].key
        ensures list[1..][j - 1].key == list[0].key
      {
      }
      assert forall i :: 0 <= i < |list| - 1 ==> list[1..][i].full == list[i + 1].full;
    }
  }

  // ---------------------------------------------------------------- what Insert keeps

  lemma {:induction false} InsertHasKey(list: seq<Batch>, w: Write, k: Key, maxBatch: int, k': Key)
    ensures HasKey(Insert(list, w, k, maxBatch), k') <==> HasKey(list, k') || k' == k
  {
    if list != [] && Passes(list[0], w, k, maxBatch) {
      InsertHasKey(list[1..], w, k, maxBatch, k');
    }
  }

  /** Adding keeps exactly one batch open per key: the last one. */
  lemma {:induction false} InsertSealed(list: seq<Batch>, w: Write, k: Key, maxBatch: int)
    requires Sealed(list)
    ensures Sealed(Insert(list, w, k, maxBatch))
  {
    if list != [] && Passes(list[0], w, k, maxBatch) {
      InsertSealed(list[1..], w, k, maxBatch);
      InsertHasKey(list[1..], w, k, maxBatch, list[0].key);
    }
  }

  lemma {:induction false} NoStream(list: seq<Batch>, k: Key)
    requires !HasKey(list, k)
    ensures Stream(list, k) == []
    ensures FirstOf(list, k) == None
  {
    if list != [] {
      NoStream(list[1..], k);
    }
  }

  /** The heart of per-key order: a write is appended to the stream of its own key and
      no other stream changes. */
  lemma {:induction false} InsertStream(list: seq<Batch>, w: Write, k: Key, maxBatch: int, k': Key)
    requires Sealed(list)
    ensures Stream(Insert(list, w, k, maxBatch), k') == Stream(list, k') + (if k' == k then [w] else [])
  {
    if list != [] {
      if Passes(list[0], w, k, maxBatch) {
        InsertStream(list[1..], w, k, maxBatch, k');
      } else {
        NoStream(list[1..], k);
      }
    }
  }

  lemma {:induction false} StreamConcat(a: seq<Batch>, b: seq<Batch>, k: Key)
    ensures Stream(a + b, k) == Stream(a, k) + Stream(b, k)
  {
    if a == [] {
      assert a + b == b;
    } else {
      StreamConcat(a[1..], b, k);
      assert (a + b)[1..] == a[1..] + b;
    }
  }

  /** Only keys and writes matter for the stream. */
  lemma {:induction false} StreamSame(a: seq<Batch>, b: seq<Batch>, k: Key)
    requires |a| == |b|
    requires forall i :: 0 <= i < |a| ==> a[i].key == b[i].key && a[i].bufs == b[i].bufs
    ensures Stream(a, k) == Stream(b, k)
  {
    if a != [] {
      StreamSame(a[1..], b[1..], k);
    }
  }

  /** Insertion happens at or after every queued batch of the same key. */
  lemma {:induction false} SlotIsLast(list: seq<Batch>, w: Write, k: Key, maxBatch: int, i: nat)
    requires Sealed(list)
    requires i < |list| && list[i].key == k
    ensures i <= Slot(list, w, k, maxBatch)
  {
    HasKeyIndex(list[1..], k);
    assert i > 0 ==> list[1..][i - 1].key == k;
    if i > 0 && Slot(list, w, k, maxBatch) > 0 {
      SlotIsLast(list[1..], w, k, maxBatch, i - 1);
    }
  }

  /** The bytes in the queue grow by the bytes of the write. */
  lemma {:induction false} InsertSize(list: seq<Batch>, w: Write, k: Key, maxBatch: int)
    ensures Sum(Sizes(Insert(list, w, k, maxBatch))) == Sum(Sizes(list)) + |w.data|
  {
    if list != [] && Passes(list[0], w, k, maxBatch) {
      InsertSize(list[1..], w, k, maxBatch);
    }
    if list == [] {
      assert Sizes([NewBatch(w, k)]) == [|w.data|];
      assert Sum([|w.data|]) == |w.data| + Sum([]);
    }
  }

  lemma JoinWellFormed(b: Batch, w: Write)
    requires WellFormed(b)
    ensures WellFormed(Join(b, w))
  {
    BodyAppend(b.bufs, w);
  }

  lemma NewWellFormed(w: Write, k: Key)
    ensures WellFormed(NewBatch(w, k))
  {
    BodyAppend([], w);
    assert [] + [w] == [w];
  }

  /** Whatever batch opens a key's queue keeps the write it was opened with. */
  lemma {:induction false} InsertFirst(list: seq<Batch>, w: Write, k: Key, maxBatch: int, k': Key)
    ensures var old', new' := FirstOf(list, k'), FirstOf(Insert(list, w, k, maxBatch), k');
            && (old'.None? ==> new' == if k' == k then Some(NewBatch(w, k)) else None)
            && (old'.Some? && old'.value.bufs != [] ==>
                  new'.Some? && new'.value.bufs != [] && new'.value.bufs[0] == old'.value.bufs[0])
  {
    if list != [] && Passes(list[0], w, k, maxBatch) {
      InsertFirst(list[1..], w, k, maxBatch, k');
    }
  }

  lemma {:induction false} InsertPacked(list: seq<Batch>, w: Write, k: Key, maxBatch: int)
    requires Sealed(list) && Packed(list, maxBatch)
    ensures Packed(Insert(list, w, k, maxBatch), maxBatch)
  {
    if list == [] {
      NewWellFormed(w, k);
    } else if Passes(list[0], w, k, maxBatch) {
      InsertPacked(list[1..], w, k, maxBatch);
      InsertFirst(list[1..], w, k, maxBatch, list[0].key);
      if list[0].key == k && !list[0].full {
        NoStream(list[1..], k);
      } else if FirstOf(list[1..], list[0].key).None? {
        FirstNone(list[1..], list[0].key);
      }
    } else {
      JoinWellFormed(list[0], w);
      NoStream(list[1..], k);
    }
  }

  lemma {:induction false} FirstNone(list: seq<Batch>, k: Key)
    requires FirstOf(list, k).None?
    ensures !HasKey(list, k)
  {
    if list != [] {
      FirstNone(list[1..], k);
    }
  }

  // ---------------------------------------------------------------- the queue as a whole

  lemma {:induction false} PackedSize(list: seq<Batch>, maxBatch: int)
    requires Packed(list, maxBatch)
    ensures Sum(Sizes(list)) >= 0
  {
    if list != [] {
      PackedSize(list[1..], maxBatch);
    }
  }

  /** `size` accounts for every queued byte and never passes `maxSize`; the queue is
      sealed and packed. */
  ghost predicate QueueOk(view: seq<Batch>, size: int, maxSize: int, maxBatch: int) {
    && size == Sum(Sizes(view))
    && 0 <= size && (size <= maxSize || size == 0)
    && Sealed(view)
    && Packed(view, maxBatch)
  }

  lemma InsertQueueOk(view: seq<Batch>, size: int, maxSize: int, maxBatch: int, w: Write, k: Key)
    requires QueueOk(view, size, maxSize, maxBatch) && size + |w.data| <= maxSize
    ensures QueueOk(Insert(view, w, k, maxBatch), size + |w.data|, maxSize, maxBatch)
  {
    InsertSealed(view, w, k, maxBatch);
    InsertPacked(view, w, k, maxBatch);
    InsertSize(view, w, k, maxBatch);
  }

  /** Dropping the first batch keeps every property of the queue. */
  lemma DropQueueOk(view: seq<Batch>, size: int, maxSize: int, maxBatch: int)
    requires QueueOk(view, size, maxSize, maxBatch) && size != 0
    ensures view != [] && QueueOk(view[1..], size - view[0].size, maxSize, maxBatch)
  {
    PackedSize(view[1..], maxBatch);
  }

  // ---------------------------------------------------------------- packing bound

  /** Sizes of the queued batches of one key, in order. */
  function KeySizes(list: seq<Batch>, k: Key): seq<int> {
    if list == [] then []
    else (if list[0].key == k then [list[0].size] else []) + KeySizes(list[1..], k)
  }

  lemma {:induction false} KeySizesNeighbours(list: seq<Batch>, k: Key, maxBatch: int)
    requires Packed(list, maxBatch)
    ensures var s := KeySizes(list, k);
            && (forall i :: 0 <= i < |s| ==> s[i] >= 0)
            && (forall i :: 0 <= i < |s| - 1 ==> s[i] + s[i + 1] > maxBatch)
            && (s == [] <==> FirstOf(list, k).None?)
            && (s != [] ==> FirstOf(list, k).Some? && s[0] == FirstOf(list, k).value.size
                            && WellFormed(FirstOf(list, k).value))
  {
    if list != [] {
      KeySizesNeighbours(list[1..], k, maxBatch);
      var rest := KeySizes(list[1..], k);
      if list[0].key == k && rest != [] {
        var next := FirstOf(list[1..], k).value;
        BodyConcat([next.bufs[0]], next.bufs[1..]);
        assert next.bufs == [next.bufs[0]] + next.bufs[1..];
        BodyAppend([], next.bufs[0]);
        assert [] + [next.bufs[0]] == [next.bufs[0]];
        assert next.size >= |next.bufs[0].data|;
        assert list[0].size + rest[0] > maxBatch;
      }
    }
  }

  /** k queued batches of a key hold more than floor(k / 2) * maxBatch bytes. */
  lemma PackingBound(list: seq<Batch>, k: Key, maxBatch: int)
    requires Packed(list, maxBatch)
    ensures var s := KeySizes(list, k);
            |s| >= 2 ==> Sum(s) > |s| / 2 * maxBatch
  {
    var s := KeySizes(list, k);
    KeySizesNeighbours(list, k, maxBatch);
    if |s| >= 2 {
      PairsBoundSum(s, maxBatch + 1);
      assert |s| / 2 * (maxBatch + 1) == |s| / 2 * maxBatch + |s| / 2;
    }
  }

  // ---------------------------------------------------------------- why batches are sealed

  /** `add` without the assignment that marks a batch full. */
  function InsertUnsealed(list: seq<Batch>, w: Write, k: Key, maxBatch: int): seq<Batch> {
    if list == [] then [NewBatch(w, k)]
    else if Passes(list[0], w, k, maxBatch) then
      [list[0]] + InsertUnsealed(list[1..], w, k, maxBatch)
    else [Join(list[0], w)] + list[1..]
  }

  /** Without sealing, three writes of one key come out in the wrong order: the second
      does not fit the first batch, the third does and slips in ahead of the second. */
  lemma UnsealedReorders(k: Key, a: Write, b: Write, c: Write, m: int)
    requires |a.data| + |b.data| > m && |a.data| + |c.data| <= m
    ensures var unsealed := InsertUnsealed(InsertUnsealed(InsertUnsealed([], a, k, m), b, k, m), c, k, m);
            var sealed := Insert(Insert(Insert([], a, k, m), b, k, m), c, k, m);
            && Stream(unsealed, k) == [a, c, b]
            && Stream(sealed, k) == [a, b, c]
  {
    var l1 := [NewBatch(a, k)];
    var l2 := [NewBatch(a, k), NewBatch(b, k)];
    assert InsertUnsealed([], a, k, m) == l1;
    assert l1[1..] == [] && InsertUnsealed([], b, k, m) == [NewBatch(b, k)];
    assert InsertUnsealed(l1, b, k, m) == l2;
    var l3 := [Join(NewBatch(a, k), c), NewBatch(b, k)];
    assert l2[1..] == [NewBatch(b, k)];
    assert InsertUnsealed(l2, c, k, m) == l3;
    assert l3[1..] == [NewBatch(b, k)] && l3[1..][1..] == [];
    assert Stream(l3[1..], k) == [b] + Stream([], k);
    assert Stream(l3, k) == [a, c] + [b];

    assert Sealed([]);
    InsertSealed([], a, k, m);
    InsertSealed(Insert([], a, k, m), b, k, m);
    InsertStream([], a, k, m, k);
    InsertStream(Insert([], a, k, m), b, k, m, k);
    InsertStream(Insert(Insert([], a, k, m), b, k, m), c, k, m, k);
    assert Stream([], k) + [a] + [b] + [c] == [a, b, c];
  }
}
