/** The linked list of batches, updated in place: `bufferList.add` and `bufferList.pop`
    are proved to do to the heap what `Insert` and dropping the first element do to the
    sequence of queued batches. */
module BufferList {
  import opened Basics
  import opened BatchList

  class BatchNode {
    const key: Key
    var bufs: seq<Write>
    var size: int
    var full: bool
    var wg: int
    var resp: Option<Response>
    var next: BatchNode?

    constructor (w: Write, k: Key)
      ensures Val() == NewBatch(w, k) && next == null
    {
      key := k;
      bufs, size, full := [w], |w.data|, false;
      wg, resp, next := 1, None, null;
    }

    method Take(w: Write)
      modifies this`size, this`bufs
      ensures Val() == Join(old(Val()), w)
    {
      size := size + |w.data|;
      bufs := bufs + [w];
    }

    function Val(): Batch
      reads this
    {
      Batch(key, bufs, size, full, wg, resp)
    }
  }

  ghost function Vals(nodes: seq<BatchNode>): seq<Batch>
    reads nodes
  {
    seq(|nodes|, i requires 0 <= i < |nodes| reads nodes => nodes[i].Val())
  }

  /** The nodes form one acyclic chain, ending in null. */
  ghost predicate Chained(nodes: seq<BatchNode>)
    reads nodes
  {
    && (forall i, j :: 0 <= i < j < |nodes| ==> nodes[i] != nodes[j])
    && (forall i {:trigger nodes[i].next} :: 0 <= i < |nodes| ==>
          nodes[i].next == (if i + 1 < |nodes| then nodes[i + 1] else null))
  }

  class BufferList {
    var head: BatchNode?
    var size: int
    const maxSize: int
    const maxBatch: int
    ghost var spine: seq<BatchNode>  // the nodes from `head` on

    /** `spine` is the acyclic chain from `head`, and the queue it holds is in order. */
    ghost predicate Valid()
      reads this, spine
    {
      && Chained(spine)
      && head == (if spine == [] then null else spine[0])
      && QueueOk(View(), size, maxSize, maxBatch)
    }

    ghost function View(): seq<Batch>
      reads `spine, spine
    {
      Vals(spine)
    }

    constructor (maxSize: int, maxBatch: int)
      ensures Valid() && View() == [] && spine == []
      ensures this.maxSize == maxSize && this.maxBatch == maxBatch
    {
      head, size, spine := null, 0, [];
      this.maxSize, this.maxBatch := maxSize, maxBatch;
    }

    /** The part of `pop` after its wait for `size` to become non-zero. */
    method Pop() returns (b: BatchNode)
      requires Valid()
      requires size != 0
      modifies this
      ensures Valid()
      ensures old(spine) != [] && b == old(spine)[0] && spine == old(spine)[1..]
      ensures View() == old(View())[1..]
      ensures size == old(size) - b.size
    {
      DropQueueOk(View(), size, maxSize, maxBatch);
      ghost var view := View();
      b := head;
      head := head.next;
      size := size - b.size;
      spine := spine[1..];
      assert view[0] == b.Val();
      assert View() == view[1..];
    }

    /** The loop of `add`: seals the batches it goes past and stops at the batch that
        takes the write, or at the end. */
    method Walk(w: Write, k: Key) returns (prev: BatchNode?, cur: BatchNode?, ghost at: nat)
      requires Chained(spine) && head == (if spine == [] then null else spine[0])
      modifies spine
      ensures Chained(spine)
      ensures at <= |spine|
      ensures prev == (if at == 0 then null else spine[at - 1])
      ensures cur == (if at == |spine| then null else spine[at])
      ensures forall i :: 0 <= i < at ==> Passes(old(spine[i].Val()), w, k, maxBatch)
      ensures at < |spine| ==> !Passes(old(spine[at].Val()), w, k, maxBatch)
      ensures forall i :: 0 <= i < at ==> spine[i].Val() == Passed(old(spine[i].Val()), k)
      ensures forall i :: at <= i < |spine| ==> spine[i].Val() == old(spine[i].Val())
    {
      prev, cur, at := null, head, 0;
      while cur != null && Passes(cur.Val(), w, k, maxBatch)
        invariant at <= |spine|
        invariant prev == (if at == 0 then null else spine[at - 1])
        invariant cur == (if at == |spine| then null else spine[at])
        invariant Chained(spine)
        invariant forall i :: 0 <= i < at ==> Passes(old(spine[i].Val()), w, k, maxBatch)
        invariant forall i :: 0 <= i < at ==> spine[i].Val() == Passed(old(spine[i].Val()), k)
        invariant forall i :: at <= i < |spine| ==> unchanged(spine[i])
        decreases |spine| - at
      {
        if !Skips(cur.Val(), k) {
          cur.full := true;
        }
        prev := cur;
        cur := cur.next;
        at := at + 1;
      }
    }

    /** The walk of `add` and the insertion it ends in. */
    method Place(w: Write, k: Key) returns (prev: BatchNode?)
      requires Chained(spine) && head == (if spine == [] then null else spine[0])
      modifies this`head, this`spine, spine
      ensures Chained(spine) && head == (if spine == [] then null else spine[0])
      ensures View() == Insert(old(View()), w, k, maxBatch)
      ensures |old(spine)| <= |spine| && spine[..|old(spine)|] == old(spine)
      ensures forall i :: |old(spine)| <= i < |spine| ==> fresh(spine[i])
      ensures var at := Slot(old(View()), w, k, maxBatch);
              at < |spine| && prev == (if at == 0 then null else spine[at - 1])
    {
      ghost var view := View();
      var cur;
      ghost var at;
      prev, cur, at := Walk(w, k);
      ghost var walked := View();
      Attach(prev, cur, w, k, at);
      ghost var r := View();
      assert forall i :: 0 <= i < |walked| && i != at ==> r[i] == walked[i];
      InsertByShape(view, r, w, k, maxBatch, at);
    }

    /** What follows the loop of `add`: a new last node, or one more write in `cur`. */
    method Attach(prev: BatchNode?, cur: BatchNode?, w: Write, k: Key, ghost at: nat)
      requires Chained(spine) && head == (if spine == [] then null else spine[0])
      requires at <= |spine|
      requires prev == (if at == 0 then null else spine[at - 1])
      requires cur == (if at == |spine| then null else spine[at])
      modifies this`head, this`spine, spine
      ensures Chained(spine) && head == (if spine == [] then null else spine[0])
      ensures |spine| == (if at == |old(spine)| then at + 1 else |old(spine)|)
      ensures spine[..|old(spine)|] == old(spine)
      ensures forall i :: |old(spine)| <= i < |spine| ==> fresh(spine[i])
      ensures spine[at].Val() == (if at == |old(spine)| then NewBatch(w, k) else Join(old(spine[at].Val()), w))
      ensures forall i :: 0 <= i < |old(spine)| && i != at ==> spine[i].Val() == old(spine[i].Val())
    {
      if cur == null {
        AppendTail(prev, w, k);
      } else {
        cur.Take(w);
      }
    }

    /** The critical section of `add`. `prev` stands for the pointer-to-pointer `cur`:
        the node whose `next` field it points at, or null for the `head` field. */
    method AddLocked(w: Write, k: Key) returns (ok: bool, prev: BatchNode?)
      requires Valid()
      modifies this, spine
      ensures Valid()
      ensures ok == (old(size) + |w.data| <= maxSize)
      ensures !ok ==> unchanged(this) && unchanged(old(spine))
      ensures ok ==>
        && View() == Insert(old(View()), w, k, maxBatch)
        && size == old(size) + |w.data|
        && |old(spine)| <= |spine| && spine[..|old(spine)|] == old(spine)
        && (forall i :: |old(spine)| <= i < |spine| ==> fresh(spine[i]))
        && var at := Slot(old(View()), w, k, maxBatch);
           at < |spine| && prev == (if at == 0 then null else spine[at - 1])
    {
      if size + |w.data| > maxSize {
        return false, null;
      }
      InsertQueueOk(View(), size, maxSize, maxBatch, w, k);
      ok := true;
      size := size + |w.data|;
      prev := Place(w, k);
    }

    /** `*cur = newBatch(...)` at the end of the list. */
    method AppendTail(prev: BatchNode?, w: Write, k: Key)
      requires Chained(spine) && head == (if spine == [] then null else spine[0])
      requires prev == (if spine == [] then null else spine[|spine| - 1])
      modifies this`head, this`spine, spine
      ensures |spine| == |old(spine)| + 1
      ensures Chained(spine) && head == spine[0]
      ensures spine[..|old(spine)|] == old(spine)
      ensures fresh(spine[|old(spine)|]) && spine[|old(spine)|].Val() == NewBatch(w, k)
      ensures forall i :: 0 <= i < |old(spine)| ==> spine[i].Val() == old(spine[i].Val())
    {
      var node := new BatchNode(w, k);
      if prev == null {
        head := node;
      } else {
        prev.next := node;
      }
      spine := spine + [node];
    }

    /** `*cur`, as read by the return statement of `add` after the unlock. */
    method Deref(prev: BatchNode?) returns (b: BatchNode?)
      ensures b == (if prev == null then head else prev.next)
    {
      b := if prev == null then head else prev.next;
    }

    /** `add` when nothing runs between the unlock and the return: it hands out the
        batch that holds the write. */
    method Add(w: Write, k: Key) returns (b: BatchNode?)
      requires Valid()
      modifies this, spine
      ensures Valid()
      ensures b == null <==> old(size) + |w.data| > maxSize
      ensures b == null ==> unchanged(this) && unchanged(old(spine))
      ensures b != null ==>
        var at := Slot(old(View()), w, k, maxBatch);
        && View() == Insert(old(View()), w, k, maxBatch)
        && size == old(size) + |w.data|
        && at < |spine| && b == spine[at]
        && w in b.bufs && b.key == k
    {
      ghost var view := View();
      var ok, prev := AddLocked(w, k);
      if !ok {
        return null;
      }
      b := Deref(prev);
      InsertShape(view, w, k, maxBatch);
      assert b.Val() == View()[Slot(view, w, k, maxBatch)];
    }

    /** `add` with one `pop` between the unlock and the return. The batch handed out is
        the one that holds the write exactly when that batch is not at the head. */
    method AddWithPopBeforeReturn(w: Write, k: Key) returns (ok: bool, ghost own: BatchNode?, b: BatchNode?)
      requires Valid()
      requires size + |w.data| > 0
      modifies this, spine
      ensures Valid()
      ensures ok == (old(size) + |w.data| <= maxSize)
      ensures ok ==> own != null && w in own.bufs && own.key == k
      ensures ok ==> (b == own <==> Slot(old(View()), w, k, maxBatch) != 0)
      ensures ok && old(View()) == [] ==> b == null
    {
      ghost var view := View();
      own, b := null, null;
      var prev;
      ok, prev := AddLocked(w, k);
      if ok {
        InsertShape(view, w, k, maxBatch);
        ghost var at := Slot(view, w, k, maxBatch);
        own := spine[at];
        assert own.Val() == View()[at];
        ghost var before := spine;
        var popped := Pop();
        assert popped == before[0];
        assert at > 0 ==> before[at - 1].next == before[at];
        b := Deref(prev);
      }
    }
  }
}
