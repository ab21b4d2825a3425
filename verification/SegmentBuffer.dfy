/** Combining short messages to the same processor, as `multiOutBufferQueue` in `outBufferQ.cpp` does.
    The destinations with something pending form a doubly linked list embedded in two arrays. */
module SegmentBuffer {

  const NO_PROCESSOR := -1
  const SEGMENT_SEPARATOR := 5187
  const LAST_SEGMENT_MARKER := 21505

  // ---------- The list ----------

  function At(order: seq<int>, k: int): int { if 0 <= k < |order| then order[k] else NO_PROCESSOR }

  ghost predicate Distinct(order: seq<int>) { forall i, j | 0 <= i < j < |order| :: order[i] != order[j] }

  ghost predicate InRange(n: int, order: seq<int>) { forall k | 0 <= k < |order| :: 0 <= order[k] < n }

  ghost predicate LinkOk(order: seq<int>, next: seq<int>, prev: seq<int>, k: int)
    requires 0 <= k < |order| && InRange(|next|, order) && |next| == |prev|
  {
    next[order[k]] == At(order, k + 1) && prev[order[k]] == At(order, k - 1)
  }

  ghost predicate Unlinked(order: seq<int>, next: seq<int>, prev: seq<int>)
    requires |next| == |prev|
  {
    forall d | 0 <= d < |next| && d !in order :: next[d] == NO_PROCESSOR && prev[d] == NO_PROCESSOR
  }

  /** The arrays hold the list `order`, forwards and backwards, and nothing else. */
  ghost predicate Linked(order: seq<int>, next: seq<int>, prev: seq<int>, first: int) {
    && |next| == |prev| && InRange(|next|, order) && Distinct(order) && first == At(order, 0)
    && (forall k | 0 <= k < |order| :: LinkOk(order, next, prev, k)) && Unlinked(order, next, prev)
  }

  lemma PushFront(order: seq<int>, next: seq<int>, prev: seq<int>, first: int, d: int)
    requires Linked(order, next, prev, first) && 0 <= d < |next| && d !in order
    ensures first != NO_PROCESSOR ==> 0 <= first < |prev| && first != d
    ensures var prev1 := if first != NO_PROCESSOR then prev[first := d] else prev;
            Linked([d] + order, next[d := first], prev1[d := NO_PROCESSOR], d)
  {
    var list, next' := [d] + order, next[d := first];
    var prev' := (if first != NO_PROCESSOR then prev[first := d] else prev)[d := NO_PROCESSOR];
    forall k | 0 <= k < |list| ensures LinkOk(list, next', prev', k) {
      if k > 0 {
        assert LinkOk(order, next, prev, k - 1);
      }
    }
  }

  function Drop(order: seq<int>, k: int): seq<int>
    requires 0 <= k < |order|
  {
    order[..k] + order[k + 1..]
  }

  /** The arrays after `sendOnly` has unlinked `d`. */
  function NextWithout(next: seq<int>, prev: seq<int>, first: int, d: int): seq<int>
    requires 0 <= d < |next| == |prev| && (d != first ==> 0 <= prev[d] < |next|)
  {
    (if d == first then next else next[prev[d] := next[d]])[d := NO_PROCESSOR]
  }

  function PrevWithout(next: seq<int>, prev: seq<int>, d: int): seq<int>
    requires 0 <= d < |next| == |prev| && (next[d] != NO_PROCESSOR ==> 0 <= next[d] < |prev|)
  {
    (if next[d] != NO_PROCESSOR then prev[next[d] := prev[d]] else prev)[d := NO_PROCESSOR]
  }

  lemma NeighboursInRange(order: seq<int>, next: seq<int>, prev: seq<int>, first: int, k: int)
    requires Linked(order, next, prev, first) && 0 <= k < |order|
    ensures order[k] != first ==> 0 <= prev[order[k]] < |next| && prev[order[k]] != order[k]
    ensures next[order[k]] != NO_PROCESSOR ==> 0 <= next[order[k]] < |prev| && next[order[k]] != order[k]
    ensures order[k] == first <==> k == 0
  {
    assert LinkOk(order, next, prev, k);
  }

  lemma Unlink(order: seq<int>, next: seq<int>, prev: seq<int>, first: int, k: int)
    requires Linked(order, next, prev, first) && 0 <= k < |order|
    ensures var d := order[k];
            && (d != first ==> 0 <= prev[d] < |next|) && (next[d] != NO_PROCESSOR ==> 0 <= next[d] < |prev|)
            && Linked(Drop(order, k), NextWithout(next, prev, first, d), PrevWithout(next, prev, d),
                      if d == first then next[d] else first)
  {
    var d, list := order[k], Drop(order, k);
    NeighboursInRange(order, next, prev, first, k);
    assert LinkOk(order, next, prev, k);
    var next', prev' := NextWithout(next, prev, first, d), PrevWithout(next, prev, d);
    forall j | 0 <= j < |list| ensures LinkOk(list, next', prev', j) {
      var i := if j < k then j else j + 1;
      assert list[j] == order[i] && LinkOk(order, next, prev, i);
    }
    forall e | 0 <= e < |next| && e !in list ensures next'[e] == NO_PROCESSOR && prev'[e] == NO_PROCESSOR {
      StillUnlinked(order, next, prev, first, k, e);
    }
  }

  lemma InDropped(order: seq<int>, k: int)
    requires 0 <= k < |order| && Distinct(order)
    ensures forall d :: d in Drop(order, k) <==> d in order && d != order[k]
  {
    assert order == order[..k] + [order[k]] + order[k + 1..];
    assert order[k] !in order[..k] && order[k] !in order[k + 1..];
  }

  lemma NotANeighbour(order: seq<int>, next: seq<int>, prev: seq<int>, first: int, k: int, e: int)
    requires Linked(order, next, prev, first) && 0 <= k < |order| && 0 <= e < |next| && e !in order
    ensures next[order[k]] != e && prev[order[k]] != e && next[e] == NO_PROCESSOR && prev[e] == NO_PROCESSOR
  {
    assert LinkOk(order, next, prev, k);
  }

  lemma StillUnlinked(order: seq<int>, next: seq<int>, prev: seq<int>, first: int, k: int, e: int)
    requires Linked(order, next, prev, first) && 0 <= k < |order| && 0 <= e < |next| && e !in Drop(order, k)
    requires order[k] != first ==> 0 <= prev[order[k]] < |next|
    requires next[order[k]] != NO_PROCESSOR ==> 0 <= next[order[k]] < |prev|
    ensures NextWithout(next, prev, first, order[k])[e] == NO_PROCESSOR
    ensures PrevWithout(next, prev, order[k])[e] == NO_PROCESSOR
  {
    InDropped(order, k);
    if e != order[k] {
      NeighboursInRange(order, next, prev, first, k);
      NotANeighbour(order, next, prev, first, k, e);
    }
  }

  // ---------- The buffers ----------

  /** What a buffer holds while the last of these segments is being written. */
  function OpenWords(segs: seq<seq<int>>): seq<int>
    requires segs != []
  {
    if |segs| == 1 then segs[0] else OpenWords(segs[..|segs| - 1]) + [SEGMENT_SEPARATOR] + segs[|segs| - 1]
  }

  function MessageWords(segs: seq<seq<int>>): seq<int>
    requires segs != []
  {
    OpenWords(segs) + [LAST_SEGMENT_MARKER]
  }

  datatype Send = Send(dest: int, words: seq<int>)

  datatype Message = Message(dest: int, segs: seq<seq<int>>)

  ghost predicate Pending(used: seq<int>, buffer: seq<seq<int>>, pending: seq<seq<seq<int>>>, order: seq<int>) {
    && |used| == |buffer| == |pending|
    && forall d | 0 <= d < |used| ::
         && used[d] == |pending[d]| && (d in order <==> pending[d] != [])
         && (pending[d] != [] ==> buffer[d] == OpenWords(pending[d]))
  }

  ghost predicate SentAs(outbox: seq<Send>, sent: seq<Message>) {
    && |outbox| == |sent|
    && forall i | 0 <= i < |sent| :: sent[i].segs != [] && outbox[i] == Send(sent[i].dest, MessageWords(sent[i].segs))
  }

  /** All segments sent to `d`, in order. */
  ghost function SentTo(sent: seq<Message>, d: int): seq<seq<int>> {
    if sent == [] then [] else
      var last := sent[|sent| - 1];
      SentTo(sent[..|sent| - 1], d) + if last.dest == d then last.segs else []
  }

  lemma SentMore(sent: seq<Message>, m: Message, d: int)
    ensures SentTo(sent + [m], d) == SentTo(sent, d) + if m.dest == d then m.segs else []
  {
    assert (sent + [m])[..|sent|] == sent;
  }

  /** The last segment with more data in it. */
  function Extended(segs: seq<seq<int>>, words: seq<int>): seq<seq<int>>
    requires segs != []
  {
    segs[..|segs| - 1] + [segs[|segs| - 1] + words]
  }

  lemma OpenExtended(segs: seq<seq<int>>, words: seq<int>)
    requires segs != []
    ensures OpenWords(Extended(segs, words)) == OpenWords(segs) + words
  {
    var more := Extended(segs, words);
    assert more[..|more| - 1] == segs[..|segs| - 1];
    if |segs| > 1 {
      var front := OpenWords(segs[..|segs| - 1]) + [SEGMENT_SEPARATOR];
      assert front + (segs[|segs| - 1] + words) == front + segs[|segs| - 1] + words;
    }
  }

  lemma IndexOf(order: seq<int>, d: int) returns (k: nat)
    requires d in order
    ensures k < |order| && order[k] == d
  {
    k :| 0 <= k < |order| && order[k] == d;
  }

  /** While `flush` goes down the list: the part behind is wiped out, the part ahead is as it was. */
  ghost predicate HalfWiped(order: seq<int>, k: int, next: seq<int>, prev: seq<int>) {
    && |next| == |prev| && InRange(|next|, order) && Distinct(order) && 0 <= k <= |order|
    && (forall j | k <= j < |order| :: LinkOk(order, next, prev, j)) && Unlinked(order[k..], next, prev)
  }

  lemma WipeStep(order: seq<int>, k: int, next: seq<int>, prev: seq<int>)
    requires HalfWiped(order, k, next, prev) && k < |order|
    ensures HalfWiped(order, k + 1, next[order[k] := NO_PROCESSOR], prev[order[k] := NO_PROCESSOR])
    ensures next[order[k]] == At(order, k + 1)
    ensures forall d :: d in order[k + 1..] <==> d in order[k..] && d != order[k]
  {
    var next', prev' := next[order[k] := NO_PROCESSOR], prev[order[k] := NO_PROCESSOR];
    assert order[k..] == [order[k]] + order[k + 1..];
    assert LinkOk(order, next, prev, k);
    forall j | k + 1 <= j < |order| ensures LinkOk(order, next', prev', j) {
      assert LinkOk(order, next, prev, j);
    }
  }

  class MultiOutBufferQueue {
    const maxSegments: int
    const buffer: array<seq<int>>
    const segmentsUsed: array<int>
    const nextProc: array<int>
    const prevProc: array<int>
    var firstProc: int
    /** What has been handed to `bufferQ`, in order. */
    var outbox: seq<Send>

    ghost var order: seq<int>
    ghost var pending: seq<seq<seq<int>>>
    ghost var sent: seq<Message>

    ghost predicate Arrays() {
      && buffer.Length == segmentsUsed.Length == nextProc.Length == prevProc.Length
      && segmentsUsed != nextProc && segmentsUsed != prevProc && nextProc != prevProc
    }

    ghost predicate Valid()
      reads this, buffer, segmentsUsed, nextProc, prevProc
    {
      && Arrays() && Linked(order, nextProc[..], prevProc[..], firstProc)
      && Pending(segmentsUsed[..], buffer[..], pending, order) && SentAs(outbox, sent)
    }

    /** Everything ever written for `d`: what has been sent and what is still in its buffer. */
    ghost function Written(d: int): seq<seq<int>>
      reads this
      requires 0 <= d < |pending|
    {
      SentTo(sent, d) + pending[d]
    }

    constructor (n: nat, maxSegments: int)
      ensures Valid() && fresh(buffer) && fresh(segmentsUsed) && fresh(nextProc) && fresh(prevProc)
      ensures buffer.Length == n && this.maxSegments == maxSegments && forall d | 0 <= d < n :: Written(d) == []
    {
      this.maxSegments := maxSegments;
      buffer := new seq<int>[n](_ => []);
      segmentsUsed := new int[n](_ => 0);
      nextProc := new int[n](_ => NO_PROCESSOR);
      prevProc := new int[n](_ => NO_PROCESSOR);
      firstProc := NO_PROCESSOR;
      outbox := [];
      order, sent := [], [];
      pending := seq(n, _ => []);
    }

    /** Afterwards the buffer of `dest` has a new, empty last segment. */
    method StartSegmentBuffer(dest: int)
      requires Valid() && 0 <= dest < buffer.Length
      modifies this, buffer, segmentsUsed, nextProc, prevProc
      ensures Valid() && outbox == old(outbox) && sent == old(sent)
      ensures pending == old(pending)[dest := old(pending)[dest] + [[]]]
    {
      ghost var segs := pending[dest];
      if segmentsUsed[dest] == 0 {
        PushFront(order, nextProc[..], prevProc[..], firstProc, dest);
        buffer[dest] := [];
        nextProc[dest] := firstProc;
        if firstProc != NO_PROCESSOR {
          prevProc[firstProc] := dest;
        }
        firstProc := dest;
        prevProc[dest] := NO_PROCESSOR;
        order := [dest] + order;
      } else {
        buffer[dest] := buffer[dest] + [SEGMENT_SEPARATOR];
      }
      segmentsUsed[dest] := segmentsUsed[dest] + 1;
      pending := pending[dest := segs + [[]]];
      assert (segs + [[]])[..|segs|] == segs;
    }

    /** The caller packs more data into the buffer it was given. */
    method Pack(dest: int, words: seq<int>)
      requires Valid() && 0 <= dest < buffer.Length && pending[dest] != []
      modifies this`pending, buffer
      ensures Valid()
      ensures pending == old(pending)[dest := Extended(old(pending)[dest], words)]
    {
      OpenExtended(pending[dest], words);
      buffer[dest] := buffer[dest] + words;
      pending := pending[dest := Extended(pending[dest], words)];
    }

    method SegmentDone(dest: int)
      requires Valid() && 0 <= dest < buffer.Length && maxSegments >= 1
      modifies this, buffer, segmentsUsed, nextProc, prevProc
      ensures Valid() && forall d | 0 <= d < buffer.Length :: Written(d) == old(Written(d))
      ensures pending == if |old(pending)[dest]| == maxSegments then old(pending)[dest := []] else old(pending)
    {
      if segmentsUsed[dest] == maxSegments {
        SendOnly(dest);
      }
    }

    /** Sends what there is for `dest` and takes it off the list. */
    method SendOnly(dest: int)
      requires Valid() && 0 <= dest < buffer.Length && pending[dest] != []
      modifies this, buffer, segmentsUsed, nextProc, prevProc
      ensures Valid() && pending == old(pending)[dest := []] && sent == old(sent) + [Message(dest, old(pending)[dest])]
      ensures forall d | 0 <= d < buffer.Length :: Written(d) == old(Written(d))
    {
      ghost var k := IndexOf(order, dest);
      ghost var next, prev, first := nextProc[..], prevProc[..], firstProc;
      Unlink(order, next, prev, first, k);
      NeighboursInRange(order, next, prev, first, k);
      SendBuffer(dest);
      if dest == firstProc {
        firstProc := nextProc[dest];
      } else {
        nextProc[prevProc[dest]] := nextProc[dest];
      }
      if nextProc[dest] != NO_PROCESSOR {
        prevProc[nextProc[dest]] := prevProc[dest];
      }
      nextProc[dest] := NO_PROCESSOR;
      prevProc[dest] := NO_PROCESSOR;
      assert nextProc[..] == NextWithout(next, prev, first, dest) && prevProc[..] == PrevWithout(next, prev, dest);
      InDropped(order, k);
      order := Drop(order, k);
    }

    method SendBuffer(dest: int)
      requires Arrays() && 0 <= dest < buffer.Length == |pending| && pending[dest] != []
      requires buffer[dest] == OpenWords(pending[dest]) && SentAs(outbox, sent)
      modifies this`outbox, this`pending, this`sent, buffer, segmentsUsed
      ensures segmentsUsed[..] == old(segmentsUsed[..])[dest := 0] && buffer[..] == old(buffer[..])[dest := []]
      ensures pending == old(pending)[dest := []] && sent == old(sent) + [Message(dest, old(pending)[dest])]
      ensures SentAs(outbox, sent) && forall d | 0 <= d < buffer.Length :: Written(d) == old(Written(d))
    {
      buffer[dest] := buffer[dest] + [LAST_SEGMENT_MARKER];
      outbox := outbox + [Send(dest, buffer[dest])];
      buffer[dest] := [];
      segmentsUsed[dest] := 0;
      ghost var m := Message(dest, pending[dest]);
      forall d ensures SentTo(sent + [m], d) == SentTo(sent, d) + if m.dest == d then m.segs else [] {
        SentMore(sent, m, d);
      }
      sent := sent + [m];
      pending := pending[dest := []];
    }

    /** Sends everything.  The list is wiped out on the way. */
    method Flush()
      requires Valid()
      modifies this, buffer, segmentsUsed, nextProc, prevProc
      ensures Valid() && firstProc == NO_PROCESSOR
      ensures forall d | 0 <= d < buffer.Length :: pending[d] == [] && SentTo(sent, d) == Written(d) == old(Written(d))
    {
      ghost var k := 0;
      var dest := firstProc;
      while dest != NO_PROCESSOR
        invariant 0 <= k <= |order| && order == old(order) && dest == At(order, k) && Arrays()
        invariant HalfWiped(order, k, nextProc[..], prevProc[..])
        invariant Pending(segmentsUsed[..], buffer[..], pending, order[k..]) && SentAs(outbox, sent)
        invariant |pending| == buffer.Length && forall d | 0 <= d < buffer.Length :: Written(d) == old(Written(d))
        decreases |order| - k
      {
        assert order[k..][0] == dest;
        ghost var next, prev := nextProc[..], prevProc[..];
        SendBuffer(dest);
        prevProc[dest] := NO_PROCESSOR;
        var temp := nextProc[dest];
        nextProc[dest] := NO_PROCESSOR;
        WipeStep(order, k, next, prev);
        dest := temp;
        k := k + 1;
      }
      firstProc := NO_PROCESSOR;
      order := [];
    }
  }

  // ---------- The reader ----------

  datatype Answer = More | NoMore | Mismatch

  /** `segmentsLeft`: what the word after a segment says. */
  function SegmentsLeft(word: int): Answer {
    if word == SEGMENT_SEPARATOR then More else if word == LAST_SEGMENT_MARKER then NoMore else Mismatch
  }

  /** The receiver's own unpacking takes exactly the words that were packed, whatever follows them. */
  ghost predicate Unpacks(unpack: seq<int> -> nat, seg: seq<int>) {
    forall rest :: unpack(seg + rest) == |seg|
  }

  function Following(segs: seq<seq<int>>): seq<int>
    requires segs != []
  {
    segs[0] + if |segs| == 1 then [LAST_SEGMENT_MARKER] else [SEGMENT_SEPARATOR] + Following(segs[1..])
  }

  lemma {:induction false} OpenFront(segs: seq<seq<int>>)
    requires |segs| > 1
    ensures OpenWords(segs) == segs[0] + ([SEGMENT_SEPARATOR] + OpenWords(segs[1..]))
  {
    var front, last := segs[..|segs| - 1], segs[|segs| - 1];
    if |segs| > 2 {
      OpenFront(front);
      assert front[1..] == segs[1..][..|segs| - 2];
      assert segs[1..][|segs| - 2] == last;
    }
  }

  /** The words of a message, from the reader's end. */
  lemma {:induction false} MessageFront(segs: seq<seq<int>>)
    requires segs != []
    ensures MessageWords(segs) == Following(segs)
  {
    if |segs| > 1 {
      OpenFront(segs);
      MessageFront(segs[1..]);
    }
  }

  ghost predicate Intact(unpack: seq<int> -> nat, segs: seq<seq<int>>) {
    segs != [] && forall s | s in segs :: Unpacks(unpack, s)
  }

  /** How far the reader has come. */
  ghost predicate ReadSoFar(segs: seq<seq<int>>, res: seq<seq<int>>, rest: seq<int>, more: bool) {
    && |res| <= |segs| && res == segs[..|res|]
    && if more then |res| < |segs| && rest == Following(segs[|res|..]) else |res| == |segs|
  }

  lemma ReadStep(unpack: seq<int> -> nat, segs: seq<seq<int>>, res: seq<seq<int>>, rest: seq<int>)
    requires Intact(unpack, segs) && ReadSoFar(segs, res, rest, true)
    ensures var n := unpack(rest);
            && n < |rest| && SegmentsLeft(rest[n]) != Mismatch
            && ReadSoFar(segs, res + [rest[..n]], rest[n + 1..], SegmentsLeft(rest[n]) == More)
  {
    var left := segs[|res|..];
    var seg := left[0];
    assert seg in segs && Unpacks(unpack, seg);
    var after := if |left| == 1 then [LAST_SEGMENT_MARKER] else [SEGMENT_SEPARATOR] + Following(left[1..]);
    assert rest == seg + after;
    assert rest[..|seg|] == seg && rest[|seg|] == after[0] && rest[|seg| + 1..] == after[1..];
    assert left[1..] == segs[|res| + 1..];
  }

  /** A loop that reads a segment and asks `segmentsLeft` sees exactly the segments that were written. */
  method ReadMessage(inBuf: seq<int>, unpack: seq<int> -> nat, ghost segs: seq<seq<int>>)
    returns (ok: bool, res: seq<seq<int>>)
    ensures Intact(unpack, segs) && inBuf == MessageWords(segs) ==> ok && res == segs
  {
    ghost var genuine := Intact(unpack, segs) && inBuf == MessageWords(segs);
    var rest := inBuf;
    ok, res := true, [];
    var more := true;
    if genuine {
      MessageFront(segs);
      assert segs[0..] == segs;
    }
    while ok && more
      invariant genuine ==> ok && ReadSoFar(segs, res, rest, more)
      decreases |rest|, ok
    {
      if genuine {
        ReadStep(unpack, segs, res, rest);
      }
      var n := unpack(rest);
      if n >= |rest| || SegmentsLeft(rest[n]) == Mismatch {
        ok := false;
      } else {
        res := res + [rest[..n]];
        more := SegmentsLeft(rest[n]) == More;
        rest := rest[n + 1..];
      }
    }
  }

  /** Processor `d` reads everything that has been sent to it, in the order of sending. */
  method ReceiveAll(outbox: seq<Send>, d: int, unpack: seq<int> -> nat, ghost sent: seq<Message>)
    returns (ok: bool, res: seq<seq<int>>)
    requires SentAs(outbox, sent)
    ensures (forall s | s in SentTo(sent, d) :: Unpacks(unpack, s)) ==> ok && res == SentTo(sent, d)
  {
    ok, res := true, [];
    var i := 0;
    while i < |outbox|
      invariant 0 <= i <= |outbox|
      invariant (forall s | s in SentTo(sent[..i], d) :: Unpacks(unpack, s)) ==> ok && res == SentTo(sent[..i], d)
    {
      assert sent[..i + 1] == sent[..i] + [sent[i]];
      SentMore(sent[..i], sent[i], d);
      if outbox[i].dest == d {
        var good, segs := ReadMessage(outbox[i].words, unpack, sent[i].segs);
        ok, res := ok && good, res + segs;
      }
      i := i + 1;
    }
    assert sent[..i] == sent;
  }
}
