/** The ring buffer between two file descriptors is a bounded FIFO of bytes. */
module ByteStream {

  /** Bytes stored and the two indices; one cell always stays free. */
  datatype Ring = Ring(buffer: string, push: nat, pop: nat)

  predicate Shaped(r: Ring) {
    |r.buffer| > 1 && r.push < |r.buffer| && r.pop < |r.buffer|
  }

  /** The bytes waiting, oldest first. */
  function Contents(r: Ring): string
    requires Shaped(r)
  {
    if r.pop <= r.push then r.buffer[r.pop..r.push] else r.buffer[r.pop..] + r.buffer[..r.push]
  }

  /** Differences of indices, with the ring's size added on the side that wrapped. */
  function AvailableToPop(r: Ring): int
    requires Shaped(r)
  {
    r.push - r.pop + if r.pop > r.push then |r.buffer| else 0
  }

  function AvailableToPush(r: Ring): int
    requires Shaped(r)
  {
    r.pop - r.push - 1 + if r.pop > r.push then 0 else |r.buffer|
  }

  /** How much one read may bring, and one write take: up to the end of the storage. */
  function SpaceToPush(r: Ring): int
    requires Shaped(r)
  {
    if r.push + AvailableToPush(r) >= |r.buffer| then |r.buffer| - r.push else AvailableToPush(r)
  }

  function SpanToPop(r: Ring): int
    requires Shaped(r)
  {
    if r.pop + AvailableToPop(r) >= |r.buffer| then |r.buffer| - r.pop else AvailableToPop(r)
  }

  function Wrap(index: nat, size: nat): nat {
    if index == size then 0 else index
  }

  /** Store a chunk that a read brought. */
  function Push(r: Ring, chunk: string): Ring
    requires Shaped(r) && |chunk| <= SpaceToPush(r)
  {
    r.(buffer := r.buffer[..r.push] + chunk + r.buffer[r.push + |chunk|..],
       push := Wrap(r.push + |chunk|, |r.buffer|))
  }

  /** Release the `n` bytes that a write took. */
  function Pop(r: Ring, n: nat): Ring
    requires Shaped(r) && n <= SpanToPop(r)
  {
    r.(pop := Wrap(r.pop + n, |r.buffer|))
  }

  /** The counts are those of the FIFO: bytes waiting, and all cells but one less those. A read is
      offered all the room, and a write all the bytes, up to the end of the storage. */
  lemma Counts(r: Ring)
    requires Shaped(r)
    ensures AvailableToPop(r) == |Contents(r)|
    ensures AvailableToPush(r) == |r.buffer| - 1 - |Contents(r)|
    ensures 0 <= SpaceToPush(r) <= AvailableToPush(r) && (AvailableToPush(r) > 0 ==> SpaceToPush(r) > 0)
    ensures 0 <= SpanToPop(r) <= AvailableToPop(r) && (AvailableToPop(r) > 0 ==> SpanToPop(r) > 0)
    ensures var free, end := |r.buffer| - 1 - |Contents(r)|, |r.buffer| - r.push;
            SpaceToPush(r) == if free < end then free else end
    ensures var waiting, end := |Contents(r)|, |r.buffer| - r.pop;
            SpanToPop(r) == if waiting < end then waiting else end
  {
  }

  /** A chunk ends before the free cell, so it wraps only when the front of the storage is free. */
  lemma ChunkFits(r: Ring, chunk: string)
    requires Shaped(r) && |chunk| <= SpaceToPush(r)
    ensures if r.pop > r.push then r.push + |chunk| < r.pop
            else r.push + |chunk| < |r.buffer| || (r.push + |chunk| == |r.buffer| && r.pop > 0)
  {
  }

  lemma PushAhead(r: Ring, chunk: string)
    requires Shaped(r) && r.pop <= r.push && r.push + |chunk| < |r.buffer| && |chunk| <= SpaceToPush(r)
    ensures Shaped(Push(r, chunk)) && Contents(Push(r, chunk)) == Contents(r) + chunk
  {
    assert Push(r, chunk).buffer[r.pop..r.push + |chunk|] == r.buffer[r.pop..r.push] + chunk;
  }

  lemma PushToEnd(r: Ring, chunk: string)
    requires Shaped(r) && 0 < r.pop <= r.push && r.push + |chunk| == |r.buffer| && |chunk| <= SpaceToPush(r)
    ensures Shaped(Push(r, chunk)) && Contents(Push(r, chunk)) == Contents(r) + chunk
  {
    var s := Push(r, chunk);
    assert s.push == 0 && s.buffer[..0] == "";
    assert s.buffer[r.pop..] == r.buffer[r.pop..r.push] + chunk;
  }

  lemma PushBehind(r: Ring, chunk: string)
    requires Shaped(r) && r.push + |chunk| < r.pop && |chunk| <= SpaceToPush(r)
    ensures Shaped(Push(r, chunk)) && Contents(Push(r, chunk)) == Contents(r) + chunk
  {
    var s := Push(r, chunk);
    assert s.buffer[r.pop..] == r.buffer[r.pop..];
    assert s.buffer[..s.push] == r.buffer[..r.push] + chunk;
  }

  /** Pushing appends to the FIFO: no unread byte is overwritten. */
  lemma PushAppends(r: Ring, chunk: string)
    requires Shaped(r) && |chunk| <= SpaceToPush(r)
    ensures Shaped(Push(r, chunk)) && Contents(Push(r, chunk)) == Contents(r) + chunk
    ensures |Push(r, chunk).buffer| == |r.buffer|
  {
    hide Contents;
    ChunkFits(r, chunk);
    if r.pop > r.push {
      PushBehind(r, chunk);
    } else if r.push + |chunk| < |r.buffer| {
      PushAhead(r, chunk);
    } else {
      PushToEnd(r, chunk);
    }
  }

  lemma PopAhead(r: Ring, n: nat)
    requires Shaped(r) && r.pop <= r.push && n <= SpanToPop(r)
    ensures n <= |Contents(r)| && r.buffer[r.pop..r.pop + n] == Contents(r)[..n]
    ensures Shaped(Pop(r, n)) && Contents(Pop(r, n)) == Contents(r)[n..]
  {
    assert r.pop + n <= r.push < |r.buffer|;
    assert r.buffer[r.pop..r.push][n..] == r.buffer[r.pop + n..r.push];
    assert r.buffer[r.pop..r.push][..n] == r.buffer[r.pop..r.pop + n];
  }

  lemma PopShort(r: Ring, n: nat)
    requires Shaped(r) && r.pop > r.push && r.pop + n < |r.buffer|
    ensures n <= SpanToPop(r) && n <= |Contents(r)| && r.buffer[r.pop..r.pop + n] == Contents(r)[..n]
    ensures Shaped(Pop(r, n)) && Contents(Pop(r, n)) == Contents(r)[n..]
  {
    assert r.buffer[r.pop..][n..] == r.buffer[r.pop + n..];
  }

  lemma PopToEnd(r: Ring, n: nat)
    requires Shaped(r) && r.pop > r.push && r.pop + n == |r.buffer|
    ensures n <= SpanToPop(r) && n <= |Contents(r)| && r.buffer[r.pop..r.pop + n] == Contents(r)[..n]
    ensures Shaped(Pop(r, n)) && Contents(Pop(r, n)) == Contents(r)[n..]
  {
    assert Contents(r)[n..] == r.buffer[..r.push];
  }

  /** Popping takes from the front: the bytes written out are the oldest. */
  lemma PopTakes(r: Ring, n: nat)
    requires Shaped(r) && n <= SpanToPop(r)
    ensures n <= |Contents(r)| && r.buffer[r.pop..r.pop + n] == Contents(r)[..n]
    ensures Shaped(Pop(r, n)) && Contents(Pop(r, n)) == Contents(r)[n..]
  {
    hide Contents, Pop;
    SpanEnds(r);
    if r.pop <= r.push {
      PopAhead(r, n);
    } else if r.pop + n < |r.buffer| {
      PopShort(r, n);
    } else {
      PopToEnd(r, n);
    }
  }

  lemma SpanEnds(r: Ring)
    requires Shaped(r)
    ensures SpanToPop(r) <= |r.buffer| - r.pop
  {
  }

  /** A chunk read, or a number of bytes a write took. */
  datatype Op = In(chunk: string) | Out(n: nat)

  predicate Allowed(r: Ring, op: Op)
    requires Shaped(r)
  {
    match op
    case In(chunk) => |chunk| <= SpaceToPush(r)
    case Out(n) => n <= SpanToPop(r)
  }

  /** History of a run: all bytes pushed, and all bytes popped as the writes saw them. */
  datatype History = History(ring: Ring, pushed: string, popped: string)

  function Apply(h: History, op: Op): History
    requires Shaped(h.ring) && Allowed(h.ring, op)
  {
    match op
    case In(chunk) => History(Push(h.ring, chunk), h.pushed + chunk, h.popped)
    case Out(n) => History(Pop(h.ring, n), h.pushed, h.popped + h.ring.buffer[h.ring.pop..h.ring.pop + n])
  }

  /** Bytes come out as they went in: popped bytes followed by those waiting are the bytes pushed. */
  ghost predicate Fifo(h: History) {
    Shaped(h.ring) && h.pushed == h.popped + Contents(h.ring)
  }

  lemma ApplyFifo(h: History, op: Op)
    requires Fifo(h) && Allowed(h.ring, op)
    ensures Fifo(Apply(h, op)) && |Apply(h, op).ring.buffer| == |h.ring.buffer|
  {
    hide Contents, SpaceToPush, SpanToPop;
    match op
    case In(chunk) => PushAppends(h.ring, chunk);
    case Out(n) =>
      PopTakes(h.ring, n);
      assert Contents(h.ring) == Contents(h.ring)[..n] + Contents(h.ring)[n..];
  }

  lemma ApplyShaped(h: History, op: Op)
    requires Shaped(h.ring) && Allowed(h.ring, op)
    ensures Shaped(Apply(h, op).ring)
  {
    match op
    case In(chunk) => PushAppends(h.ring, chunk);
    case Out(n) => PopTakes(h.ring, n);
  }

  /** A run of operations, each within what the ring offers at its turn; others are refused. */
  function Run(h: History, ops: seq<Op>): (r: History)
    requires Shaped(h.ring)
    ensures Shaped(r.ring)
    decreases |ops|
  {
    if ops == [] then h
    else if !Allowed(h.ring, ops[0]) then Run(h, ops[1..])
    else
      ApplyShaped(h, ops[0]);
      Run(Apply(h, ops[0]), ops[1..])
  }

  /** Every run refines a byte FIFO of capacity size - 1. */
  lemma {:induction false} RunFifo(h: History, ops: seq<Op>)
    requires Fifo(h)
    ensures var r := Run(h, ops);
            && Fifo(r) && |r.ring.buffer| == |h.ring.buffer|
            && AvailableToPop(r.ring) == |r.pushed| - |r.popped|
            && AvailableToPush(r.ring) + AvailableToPop(r.ring) == |h.ring.buffer| - 1
    decreases |ops|
  {
    Counts(h.ring);
    if ops != [] {
      if Allowed(h.ring, ops[0]) {
        ApplyFifo(h, ops[0]);
        RunFifo(Apply(h, ops[0]), ops[1..]);
      } else {
        RunFifo(h, ops[1..]);
      }
    }
  }

  datatype Result = Success | EndOfFile

  class ByteStreamQueue {
    const buffer: array<char>
    var nextByteToPush: nat
    var nextByteToPop: nat

    predicate Valid()
      reads this, buffer
    {
      Shaped(Value())
    }

    function Value(): Ring
      reads this, buffer
    {
      Ring(buffer[..], nextByteToPush, nextByteToPop)
    }

    constructor (size: nat)
      requires size > 1
      ensures Valid() && fresh(buffer) && buffer.Length == size && Contents(Value()) == ""
    {
      buffer := new char[size](_ => '\0');
      nextByteToPush, nextByteToPop := 0, 0;
    }

    /** `chunk` is what reading at most `SpaceToPush` bytes from the descriptor gave. */
    method PushFrom(chunk: string) returns (result: Result)
      requires Valid() && AvailableToPush(Value()) > 0
      requires |chunk| <= SpaceToPush(Value())
      modifies this`nextByteToPush, buffer
      ensures Valid() && result == if chunk == "" then EndOfFile else Success
      ensures Value() == Push(old(Value()), chunk)
      ensures Contents(Value()) == old(Contents(Value())) + chunk
    {
      ghost var start := Value();
      PushAppends(start, chunk);
      ChunkFits(start, chunk);
      hide Contents, SpaceToPush, AvailableToPush;
      if chunk == "" {
        assert buffer[..] == buffer[..nextByteToPush] + "" + buffer[nextByteToPush..];
        return EndOfFile;
      }
      Store(chunk);
      nextByteToPush := nextByteToPush + |chunk|;
      if nextByteToPush == buffer.Length {
        nextByteToPush := 0;
      }
      return Success;
    }

    /** Copy a chunk into the storage. */
    method Store(chunk: string)
      requires nextByteToPush + |chunk| <= buffer.Length
      modifies buffer
      ensures buffer[..] == old(buffer[..nextByteToPush]) + chunk + old(buffer[nextByteToPush + |chunk|..])
    {
      forall k | 0 <= k < |chunk| {
        buffer[nextByteToPush + k] := chunk[k];
      }
    }

    /** The descriptor took `n` of the bytes offered; they are returned. */
    method PopTo(n: nat) returns (taken: string)
      requires Valid() && AvailableToPop(Value()) > 0
      requires 0 < n <= SpanToPop(Value())
      modifies this`nextByteToPop
      ensures Valid() && Value() == Pop(old(Value()), n)
      ensures taken + Contents(Value()) == old(Contents(Value())) && |taken| == n
    {
      PopTakes(Value(), n);
      ghost var waiting := Contents(Value());
      assert waiting == waiting[..n] + waiting[n..];
      taken := buffer[nextByteToPop..nextByteToPop + n];
      assert buffer[..][nextByteToPop..nextByteToPop + n] == taken;
      nextByteToPop := nextByteToPop + n;
      if nextByteToPop == buffer.Length {
        nextByteToPop := 0;
      }
    }
  }
}
