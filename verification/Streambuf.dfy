/** The growable stream buffer of asio/basic_streambuf.hpp.

    One vector holds, from `gptr` to `pptr`, the bytes written and not yet consumed, and, from `pptr` to
    `epptr`, room to write into.  `egptr`, the end the base class reads up to, may lag behind `pptr`.
    To its callers the object is a FIFO queue bounded by `maxSize`. */
module Streambuf {
  import opened Buffers

  const BUFFER_DELTA: nat := 128

  datatype IntType = Eof | Char(c: Byte)

  datatype Outcome = Done | LengthError

  function Max(a: nat, b: nat): nat {
    if a < b then b else a
  }

  /** memmove of n bytes from `from` to the front. */
  function MoveToFront(v: seq<Byte>, from: nat, n: nat): (r: seq<Byte>)
    requires from + n <= |v|
    ensures |r| == |v| && forall i :: n <= i < |v| ==> r[i] == v[i]
  {
    seq(|v|, i requires 0 <= i < |v| => if i < n then v[from + i] else v[i])
  }

  /** Vector resize: keep what fits, zero the rest. */
  function Resize(v: seq<Byte>, n: nat): (r: seq<Byte>)
    ensures |r| == n
  {
    seq(n, i requires 0 <= i < n => if i < |v| then v[i] else 0)
  }

  function Overwrite(v: seq<Byte>, at: nat, bytes: seq<Byte>): seq<Byte>
    requires at + |bytes| <= |v|
  {
    seq(|v|, i requires 0 <= i < |v| => if at <= i < at + |bytes| then bytes[i - at] else v[i])
  }

  /** What is left to read after a `prepare` that failed: the bytes were moved to the front of the vector
      but the read position was not. */
  function AfterFailedPrepare(input: seq<Byte>, gptr: nat): (r: seq<Byte>)
    ensures |r| == |input| && (gptr == 0 ==> r == input)
  {
    seq(|input|, i requires 0 <= i < |input| =>
      if gptr > 0 && gptr + i < |input| then input[gptr + i] else input[i])
  }

  /** Positions g .. p - 1 of the vector hold the input. */
  ghost predicate Holds(v: seq<Byte>, g: nat, p: nat, input: seq<Byte>) {
    && g <= p <= |v|
    && |input| == p - g
    && forall i :: g <= i < p ==> v[i] == input[i - g]
  }

  /** What a move to the front shows at the new read position, and at the old one. */
  lemma MovedInput(v: seq<Byte>, g: nat, p: nat, input: seq<Byte>)
    requires 0 < g && Holds(v, g, p, input)
    ensures var moved := MoveToFront(v, g, p - g);
            Holds(moved, 0, p - g, input) && Holds(moved, g, p, AfterFailedPrepare(input, g))
  {
  }

  lemma GrownInput(v: seq<Byte>, g: nat, p: nat, input: seq<Byte>, n: nat)
    requires Holds(v, g, p, input) && p <= n
    ensures Holds(Resize(v, n), g, p, input)
  {
  }

  lemma LessInput(v: seq<Byte>, g: nat, p: nat, input: seq<Byte>, k: nat)
    requires Holds(v, g, p, input) && k <= |input|
    ensures Holds(v, g + k, p, input[k..])
  {
  }

  lemma MoreInput(v: seq<Byte>, g: nat, p: nat, input: seq<Byte>, q: nat)
    requires Holds(v, g, p, input) && p <= q <= |v|
    ensures Holds(v, g, q, input + v[p..q])
  {
  }

  class Streambuf {
    const maxSize: nat
    var buffer: seq<Byte>
    var gptr: nat
    var egptr: nat
    var pptr: nat
    var epptr: nat

    // The input sequence: the bytes between gptr and pptr.
    ghost var input: seq<Byte>

    /** The shape every call keeps, failed ones included. */
    ghost predicate Valid()
      reads this
    {
      && gptr <= egptr <= pptr <= epptr <= maxSize
      && |buffer| == (if epptr > 0 then epptr else 1)
      && Holds(buffer, gptr, pptr, input)
    }

    constructor (maximumSize: nat)
      ensures Valid() && maxSize == maximumSize && input == []
      ensures gptr == 0 && Room() == Min(maximumSize, BUFFER_DELTA)
    {
      maxSize := maximumSize;
      var pend := if maximumSize < BUFFER_DELTA then maximumSize else BUFFER_DELTA;
      buffer := Resize([], if pend > 1 then pend else 1);
      gptr, egptr, pptr, epptr := 0, 0, 0, pend;
      input := [];
    }

    function Size(): (n: nat)
      requires Valid()
      reads this
      ensures n == |input| <= maxSize
    {
      pptr - gptr
    }

    /** The number of bytes that can be written without making room. */
    function Room(): (n: nat)
      requires Valid()
      reads this
      ensures Size() + n <= maxSize
    {
      epptr - pptr
    }

    /** The room holds what this vector held there. */
    ghost predicate SameRoom(was: seq<Byte>)
      requires Valid()
      reads this
    {
      && epptr <= |was|
      && forall i :: pptr <= i < epptr ==> buffer[i] == was[i]
    }

    /** Make room for n bytes after the input sequence, by moving it to the front and growing the vector
        if need be. */
    method Reserve(n: nat) returns (outcome: Outcome)
      requires Valid()
      modifies this
      ensures Valid()
      ensures outcome == LengthError <==> |old(input)| + n > maxSize
      ensures n <= old(Room()) ==> unchanged(this)
      ensures outcome == Done ==> input == old(input) && n <= Room()
      ensures outcome == Done && n > old(Room()) ==>
                gptr == 0 && egptr == pptr && Room() == Max(old(gptr + Room()), n)
      ensures outcome == LengthError ==>
                && unchanged(`gptr, `egptr, `pptr, `epptr)
                && input == AfterFailedPrepare(old(input), gptr)
                && SameRoom(old(buffer))
    {
      assert |input| == pptr - gptr;
      hide Holds, MoveToFront, Resize, AfterFailedPrepare;
      var gnext, pnext, pend := gptr, pptr, epptr;
      if n <= pend - pnext {
        return Done;
      }
      if gnext > 0 {
        MovedInput(buffer, gnext, pnext, input);
        pnext := pnext - gnext;
        buffer := MoveToFront(buffer, gnext, pnext);
      }
      if n > pend - pnext {
        if n <= maxSize && pnext <= maxSize - n {
          pend := pnext + n;
          GrownInput(buffer, 0, pnext, input, pend);
          buffer := Resize(buffer, if pend > 1 then pend else 1);
        } else {
          input := AfterFailedPrepare(input, gptr);
          return LengthError;
        }
      }
      gptr, egptr := 0, pnext;
      pptr, epptr := pnext, pend;
      return Done;
    }

    /** `prepare`, which hands out the n bytes after the input sequence. */
    method Prepare(n: nat) returns (outcome: Outcome)
      requires Valid()
      modifies this
      ensures Valid()
      ensures outcome == LengthError <==> |old(input)| + n > maxSize
      ensures n <= old(Room()) ==> unchanged(this)
      ensures outcome == Done ==> input == old(input) && n <= Room()
      ensures outcome == Done && n > old(Room()) ==>
                gptr == 0 && egptr == pptr && Room() == Max(old(gptr + Room()), n)
      ensures outcome == LengthError ==>
                && unchanged(`gptr, `egptr, `pptr, `epptr)
                && input == AfterFailedPrepare(old(input), gptr)
                && SameRoom(old(buffer))
    {
      outcome := Reserve(n);
    }

    /** The caller of `prepare` writes into the bytes it was handed. */
    method Fill(bytes: seq<Byte>)
      requires Valid() && |bytes| <= Room()
      modifies this`buffer
      ensures Valid()
      ensures forall i :: pptr <= i < pptr + |bytes| ==> buffer[i] == bytes[i - pptr]
      ensures forall i :: pptr + |bytes| <= i < epptr ==> buffer[i] == old(buffer)[i]
    {
      buffer := Overwrite(buffer, pptr, bytes);
    }

    /** Moves n bytes, or as many as there are, from the front of the room to the input sequence. */
    method Commit(n: nat)
      requires Valid()
      modifies this`pptr, this`egptr, this`input
      ensures Valid() && pptr == old(pptr) + Min(n, old(Room())) && egptr == pptr
      ensures input == old(input) + buffer[old(pptr)..pptr]
    {
      hide Holds;
      ghost var p := pptr;
      var n := n;
      if pptr + n > epptr {
        n := epptr - pptr;
      }
      MoreInput(buffer, gptr, pptr, input, pptr + n);
      pptr := pptr + n;
      egptr := pptr;
      input := input + buffer[p..pptr];
    }

    /** Removes n bytes, or as many as there are, from the front of the input sequence. */
    method Consume(n: nat)
      requires Valid()
      modifies this`gptr, this`egptr, this`input
      ensures Valid() && gptr == old(gptr) + Min(n, |old(input)|) && egptr == pptr
      ensures input == old(input)[Min(n, |old(input)|)..]
    {
      assert |input| == pptr - gptr;
      hide Holds;
      if egptr < pptr {
        egptr := pptr;
      }
      var n := n;
      if gptr + n > pptr {
        n := pptr - gptr;
      }
      LessInput(buffer, gptr, pptr, input, n);
      gptr := gptr + n;
      input := input[n..];
    }

    /** Called by the base class when its get area is used up. */
    method Underflow() returns (c: IntType)
      requires Valid()
      modifies this`egptr
      ensures Valid()
      ensures c == if input == [] then Eof else Char(input[0])
      ensures gptr < egptr <==> input != []
      ensures input != [] ==> egptr == pptr
    {
      if gptr < pptr {
        egptr := pptr;
        return Char(buffer[gptr]);
      } else {
        return Eof;
      }
    }

    /** Write at the put pointer and step over it. */
    method Append(c: Byte)
      requires Valid() && Room() > 0
      modifies this`buffer, this`pptr, this`input
      ensures Valid() && input == old(input) + [c]
      ensures Room() == old(Room()) - 1 && SameRoom(old(buffer))
    {
      buffer := buffer[pptr := c];
      pptr := pptr + 1;
      input := input + [c];
    }

    /** Called by the base class when its put area is used up.  A full buffer has its read position at 0,
        so the failing call has moved nothing. */
    method Overflow(c: IntType) returns (outcome: Outcome)
      requires Valid()
      modifies this
      ensures Valid()
      ensures outcome == LengthError <==> c.Char? && |old(input)| == maxSize
      ensures outcome == LengthError || c == Eof ==> input == old(input)
      ensures outcome == Done && c.Char? ==> input == old(input) + [c.c]
      ensures outcome == LengthError || c == Eof ==> unchanged(`gptr, `pptr, `epptr) && SameRoom(old(buffer))
      ensures outcome == Done && c.Char? && old(Room()) > 0 ==>
                gptr == old(gptr) && Room() == old(Room()) - 1 && SameRoom(old(buffer))
      ensures outcome == Done && c.Char? && old(Room()) == 0 ==>
                gptr == 0 && Room() == Max(old(gptr), Min(BUFFER_DELTA, maxSize - |old(input)|)) - 1
    {
      if c != Eof {
        if pptr == epptr {
          var bufferSize := pptr - gptr;
          if bufferSize < maxSize && maxSize - bufferSize < BUFFER_DELTA {
            outcome := Reserve(maxSize - bufferSize);
          } else {
            outcome := Reserve(BUFFER_DELTA);
          }
          if outcome == LengthError {
            return;
          }
        }
        Append(c.c);
      }
      return Done;
    }

    /** `sputc` of the base class: straight into the put area while there is room. */
    method Put(c: Byte) returns (outcome: Outcome)
      requires Valid()
      modifies this
      ensures Valid()
      ensures outcome == LengthError <==> |old(input)| == maxSize
      ensures input == if outcome == Done then old(input) + [c] else old(input)
      ensures outcome == LengthError ==> unchanged(`gptr, `pptr, `epptr) && SameRoom(old(buffer))
      ensures outcome == Done && old(Room()) > 0 ==>
                gptr == old(gptr) && Room() == old(Room()) - 1 && SameRoom(old(buffer))
      ensures outcome == Done && old(Room()) == 0 ==>
                gptr == 0 && Room() == Max(old(gptr), Min(BUFFER_DELTA, maxSize - |old(input)|)) - 1
    {
      if pptr < epptr {
        Append(c);
        outcome := Done;
      } else {
        outcome := Overflow(Char(c));
      }
    }

    /** `sbumpc` of the base class: straight from the get area, refilled by `underflow` when used up. */
    method Get() returns (c: IntType)
      requires Valid()
      modifies this
      ensures Valid()
      ensures c == if old(input) == [] then Eof else Char(old(input)[0])
      ensures input == old(input)[Min(1, |old(input)|)..] && gptr == old(gptr) + Min(1, |old(input)|)
      ensures unchanged(`buffer, `pptr, `epptr)
    {
      if gptr < egptr {
        c := Char(buffer[gptr]);
      } else {
        c := Underflow();
      }
      if c != Eof {
        LessInput(buffer, gptr, pptr, input, 1);
        gptr := gptr + 1;
        input := input[1..];
      }
    }

    /** How much a read operation asks for at a time: the most that the caller wants, that the maximum
        allows, and that is no more than 512 or fits the vector's capacity, of which only that it holds
        the vector is known. */
    method ReadSize(capacity: nat, wanted: nat) returns (n: nat)
      requires Valid() && |buffer| <= capacity
      ensures Askable(capacity, wanted, n) && forall m: nat :: Askable(capacity, wanted, m) ==> m <= n
    {
      var spare: nat := capacity - Size();
      var left: nat := maxSize - Size();
      n := Min(Max(512, spare), Min(wanted, left));
    }

    ghost predicate Askable(capacity: nat, wanted: nat, n: nat)
      requires Valid()
      reads this
    {
      n <= wanted && Size() + n <= maxSize && (n <= 512 || Size() + n <= capacity)
    }

    /** Preparing what `ReadSize` asks for cannot fail. */
    method PrepareRead(capacity: nat, wanted: nat) returns (outcome: Outcome)
      requires Valid() && |buffer| <= capacity
      modifies this
      ensures Valid() && outcome == Done && input == old(input)
      ensures forall m: nat :: old(Askable(capacity, wanted, m)) ==> m <= Room()
    {
      var n := ReadSize(capacity, wanted);
      forall m: nat | old(Askable(capacity, wanted, m))
        ensures m <= n
      {
        assert Askable(capacity, wanted, m);
      }
      outcome := Prepare(n);
    }
  }

  /** A failed prepare is harmless for every content exactly when the read position is at the front, or
      past the length of what is left to read: the positions at which no move overlaps the input. */
  lemma FailedPrepareHarmless(n: nat, gptr: nat)
    ensures (forall input: seq<Byte> :: |input| == n ==> AfterFailedPrepare(input, gptr) == input)
            <==> gptr == 0 || gptr >= n
  {
    if 0 < gptr < n {
      var input: seq<Byte> := seq(n, i => if i < gptr then 0 else 1);
      assert AfterFailedPrepare(input, gptr)[0] != input[0];
    }
  }

  /** Three bytes written, one taken, and a prepare that asks for too much: of the two left the first is
      lost and the second is there twice. */
  method FailedPrepareCorrupts() returns (sb: Streambuf, outcome: Outcome, ghost before: seq<Byte>)
    ensures before == [1, 2] && outcome == LengthError && sb.input == [2, 2]
  {
    sb := new Streambuf(4);
    outcome := sb.Prepare(3);
    sb.Fill([0, 1, 2]);
    sb.Commit(3);
    assert sb.input == [0, 1, 2];
    sb.Consume(1);
    before := sb.input;
    outcome := sb.Prepare(3);
    assert sb.input == [2, 2];
  }

  // The queue a streambuf is to its callers.

  /** What a caller can rely on: the bytes queued, how many were taken since the vector was last compacted,
      how many can be written without a prepare, and which of those hold what the caller put there. */
  datatype View = View(queue: seq<Byte>, taken: nat, room: nat, filled: seq<Byte>) {
    predicate Fits(max: nat) {
      taken + |queue| + room <= max && |filled| <= room
    }

    function Consumed(k: nat): View
      requires k <= |queue|
    {
      this.(queue := queue[k..], taken := taken + k)
    }

    /** With room for n bytes more. */
    function Grown(n: nat): View {
      if n <= room then this else View(queue, 0, Max(taken + room, n), [])
    }
  }

  datatype Op =
    | Prepare(n: nat)
    | Fill(bytes: seq<Byte>) // into the room, as far as it goes
    | Commit(n: nat)
    | Consume(n: nat)
    | Put(c: Byte)
    | Get
    | Peek

  datatype Reply = Ok | Failed | Committed(bytes: seq<Byte>) | Read(c: IntType)

  function Front(queue: seq<Byte>): IntType {
    if queue == [] then Eof else Char(queue[0])
  }

  function Drop(s: seq<Byte>, n: nat): seq<Byte> {
    s[Min(n, |s|)..]
  }

  predicate SameStart(a: seq<Byte>, b: seq<Byte>) {
    forall i :: 0 <= i < |a| && i < |b| ==> a[i] == b[i]
  }

  /** What an operation may answer.  A commit answers the bytes it appends: those filled before, and
      whatever the rest of the room held. */
  predicate Permitted(v: View, max: nat, op: Op, reply: Reply) {
    match op
    case Prepare(n) => reply == if |v.queue| + n <= max then Ok else Failed
    case Fill(_) => reply == Ok
    case Commit(n) => reply.Committed? && |reply.bytes| == Min(n, v.room) && SameStart(reply.bytes, v.filled)
    case Consume(_) => reply == Ok
    case Put(_) => reply == if |v.queue| < max then Ok else Failed
    case Get => reply == Read(Front(v.queue))
    case Peek => reply == Read(Front(v.queue))
  }

  /** The bytes an operation appends to the queue. */
  function Added(op: Op, reply: Reply): seq<Byte> {
    match reply
    case Committed(bytes) => bytes
    case Ok => if op.Put? then [op.c] else []
    case _ => []
  }

  /** The number of bytes it takes from the front. */
  function Taken(v: View, op: Op): (n: nat)
    ensures n <= |v.queue|
  {
    match op
    case Consume(n) => Min(n, |v.queue|)
    case Get => Min(1, |v.queue|)
    case _ => 0
  }

  function Next(v: View, max: nat, op: Op, reply: Reply): (v': View)
    requires v.Fits(max) && Permitted(v, max, op, reply)
    ensures v'.Fits(max)
  {
    match op
    case Prepare(n) =>
      if reply == Ok then v.Grown(n) else v.(queue := AfterFailedPrepare(v.queue, v.taken))
    case Fill(bytes) =>
      var k := Min(|bytes|, v.room);
      v.(filled := bytes[..k] + Drop(v.filled, k))
    case Commit(_) =>
      var k := |reply.bytes|;
      View(v.queue + reply.bytes, v.taken, v.room - k, Drop(v.filled, k))
    case Put(c) =>
      if reply == Ok then
        var g := v.Grown(if v.room > 0 then 0 else Min(BUFFER_DELTA, max - |v.queue|));
        View(v.queue + [c], g.taken, g.room - 1, Drop(g.filled, 1))
      else v
    case _ =>
      var k := Taken(v, op);
      v.Consumed(k)
  }

  /** A list of replies to a list of operations, each permitted where it comes. */
  predicate Legal(v: View, max: nat, ops: seq<Op>, replies: seq<Reply>)
    requires v.Fits(max)
    decreases |ops|, 0
  {
    && |ops| == |replies|
    && (ops != [] ==>
          var n := |ops| - 1;
          && Legal(v, max, ops[..n], replies[..n])
          && Permitted(AfterAll(v, max, ops[..n], replies[..n]), max, ops[n], replies[n]))
  }

  function AfterAll(v: View, max: nat, ops: seq<Op>, replies: seq<Reply>): (v': View)
    requires v.Fits(max) && Legal(v, max, ops, replies)
    ensures v'.Fits(max)
    decreases |ops|, 1
  {
    if ops == [] then v
    else
      var n := |ops| - 1;
      Next(AfterAll(v, max, ops[..n], replies[..n]), max, ops[n], replies[n])
  }

  /** The streambuf is in this state. */
  ghost predicate Shows(sb: Streambuf, v: View)
    requires sb.Valid()
    reads sb
  {
    && sb.input == v.queue && sb.gptr == v.taken && sb.Room() == v.room && |v.filled| <= v.room
    && forall i :: sb.pptr <= i < sb.pptr + |v.filled| ==> sb.buffer[i] == v.filled[i - sb.pptr]
  }

  /** Any interleaving of operations, failed ones included, answers as the bounded queue does and leaves
      what the queue is left with, wherever compaction, growth and the lagging read end occur. */
  method Session(sb: Streambuf, ops: seq<Op>) returns (replies: seq<Reply>)
    requires sb.Valid()
    modifies sb
    ensures sb.Valid() && |sb.input| <= sb.maxSize
    ensures var v := old(View(sb.input, sb.gptr, sb.Room(), []));
            && v.Fits(sb.maxSize) && Legal(v, sb.maxSize, ops, replies)
            && Shows(sb, AfterAll(v, sb.maxSize, ops, replies))
  {
    ghost var v := View(sb.input, sb.gptr, sb.Room(), []);
    replies := [];
    for i := 0 to |ops|
      invariant sb.Valid() && Legal(v, sb.maxSize, ops[..i], replies)
      invariant Shows(sb, AfterAll(v, sb.maxSize, ops[..i], replies))
    {
      var reply := Perform(sb, ops[i], AfterAll(v, sb.maxSize, ops[..i], replies));
      LegalExtends(v, sb.maxSize, ops, i, replies, reply);
      replies := replies + [reply];
    }
    assert ops[..|ops|] == ops;
  }

  lemma LegalExtends(v: View, max: nat, ops: seq<Op>, i: nat, replies: seq<Reply>, reply: Reply)
    requires i < |ops| && v.Fits(max) && Legal(v, max, ops[..i], replies)
    requires Permitted(AfterAll(v, max, ops[..i], replies), max, ops[i], reply)
    ensures Legal(v, max, ops[..i + 1], replies + [reply])
    ensures AfterAll(v, max, ops[..i + 1], replies + [reply])
            == Next(AfterAll(v, max, ops[..i], replies), max, ops[i], reply)
  {
    assert ops[..i + 1][..i] == ops[..i] && (replies + [reply])[..i] == replies;
  }

  method Perform(sb: Streambuf, op: Op, ghost v: View) returns (reply: Reply)
    requires sb.Valid() && Shows(sb, v)
    modifies sb
    ensures sb.Valid() && v.Fits(sb.maxSize) && Permitted(v, sb.maxSize, op, reply)
    ensures Shows(sb, Next(v, sb.maxSize, op, reply))
  {
    hide Shows, Permitted, Next;
    match op {
      case Prepare(_) => reply := PerformPrepare(sb, op, v);
      case Fill(_) => reply := PerformFill(sb, op, v);
      case Commit(_) => reply := PerformCommit(sb, op, v);
      case Put(_) => reply := PerformPut(sb, op, v);
      case Consume(_) => reply := PerformConsume(sb, op, v);
      case Get => reply := PerformGet(sb, op, v);
      case Peek => reply := PerformPeek(sb, op, v);
    }
  }

  method PerformPrepare(sb: Streambuf, op: Op, ghost v: View) returns (reply: Reply)
    requires sb.Valid() && Shows(sb, v) && op.Prepare?
    modifies sb
    ensures sb.Valid() && v.Fits(sb.maxSize) && Permitted(v, sb.maxSize, op, reply)
    ensures Shows(sb, Next(v, sb.maxSize, op, reply))
  {
    hide Holds;
    var outcome := sb.Prepare(op.n);
    reply := if outcome == Done then Ok else Failed;
  }

  method PerformFill(sb: Streambuf, op: Op, ghost v: View) returns (reply: Reply)
    requires sb.Valid() && Shows(sb, v) && op.Fill?
    modifies sb
    ensures sb.Valid() && v.Fits(sb.maxSize) && Permitted(v, sb.maxSize, op, reply)
    ensures Shows(sb, Next(v, sb.maxSize, op, reply))
  {
    hide Holds;
    sb.Fill(op.bytes[..Min(|op.bytes|, sb.Room())]);
    reply := Ok;
  }

  method PerformCommit(sb: Streambuf, op: Op, ghost v: View) returns (reply: Reply)
    requires sb.Valid() && Shows(sb, v) && op.Commit?
    modifies sb
    ensures sb.Valid() && v.Fits(sb.maxSize) && Permitted(v, sb.maxSize, op, reply)
    ensures Shows(sb, Next(v, sb.maxSize, op, reply))
  {
    hide Holds;
    var p := sb.pptr;
    sb.Commit(op.n);
    reply := Committed(sb.buffer[p..sb.pptr]);
  }

  method PerformPut(sb: Streambuf, op: Op, ghost v: View) returns (reply: Reply)
    requires sb.Valid() && Shows(sb, v) && op.Put?
    modifies sb
    ensures sb.Valid() && v.Fits(sb.maxSize) && Permitted(v, sb.maxSize, op, reply)
    ensures Shows(sb, Next(v, sb.maxSize, op, reply))
  {
    hide Holds;
    var outcome := sb.Put(op.c);
    reply := if outcome == Done then Ok else Failed;
  }

  method PerformConsume(sb: Streambuf, op: Op, ghost v: View) returns (reply: Reply)
    requires sb.Valid() && Shows(sb, v) && op.Consume?
    modifies sb
    ensures sb.Valid() && v.Fits(sb.maxSize) && Permitted(v, sb.maxSize, op, reply)
    ensures Shows(sb, Next(v, sb.maxSize, op, reply))
  {
    hide Holds;
    sb.Consume(op.n);
    reply := Ok;
  }

  method PerformGet(sb: Streambuf, op: Op, ghost v: View) returns (reply: Reply)
    requires sb.Valid() && Shows(sb, v) && op.Get?
    modifies sb
    ensures sb.Valid() && v.Fits(sb.maxSize) && Permitted(v, sb.maxSize, op, reply)
    ensures Shows(sb, Next(v, sb.maxSize, op, reply))
  {
    hide Holds;
    var c := sb.Get();
    reply := Read(c);
  }

  method PerformPeek(sb: Streambuf, op: Op, ghost v: View) returns (reply: Reply)
    requires sb.Valid() && Shows(sb, v) && op.Peek?
    modifies sb
    ensures sb.Valid() && v.Fits(sb.maxSize) && Permitted(v, sb.maxSize, op, reply)
    ensures Shows(sb, Next(v, sb.maxSize, op, reply))
  {
    hide Holds;
    var c := sb.Underflow();
    reply := Read(c);
  }

  /** An operation that takes, appends or leaves bytes, but damages none: any but a failed prepare that
      finds the read position strictly inside the length of the queue. */
  predicate Harmless(v: View, op: Op, reply: Reply) {
    op.Prepare? && reply == Failed ==> v.taken == 0 || v.taken >= |v.queue|
  }

  predicate AllHarmless(v: View, max: nat, ops: seq<Op>, replies: seq<Reply>)
    requires v.Fits(max) && Legal(v, max, ops, replies)
    decreases |ops|
  {
    ops != [] ==>
      var n := |ops| - 1;
      && AllHarmless(v, max, ops[..n], replies[..n])
      && Harmless(AfterAll(v, max, ops[..n], replies[..n]), ops[n], replies[n])
  }

  function AddedByAll(ops: seq<Op>, replies: seq<Reply>): seq<Byte>
    requires |ops| == |replies|
    decreases |ops|
  {
    if ops == [] then []
    else
      var n := |ops| - 1;
      AddedByAll(ops[..n], replies[..n]) + Added(ops[n], replies[n])
  }

  function TakenByAll(v: View, max: nat, ops: seq<Op>, replies: seq<Reply>): seq<Byte>
    requires v.Fits(max) && Legal(v, max, ops, replies)
    decreases |ops|
  {
    if ops == [] then []
    else
      var n := |ops| - 1;
      var v' := AfterAll(v, max, ops[..n], replies[..n]);
      TakenByAll(v, max, ops[..n], replies[..n]) + v'.queue[..Taken(v', ops[n])]
  }

  /** First in, first out: what was there and what was added, in order, is what was taken out followed
      by what is left. */
  lemma {:induction false} FirstInFirstOut(v: View, max: nat, ops: seq<Op>, replies: seq<Reply>)
    requires v.Fits(max) && Legal(v, max, ops, replies) && AllHarmless(v, max, ops, replies)
    ensures v.queue + AddedByAll(ops, replies)
            == TakenByAll(v, max, ops, replies) + AfterAll(v, max, ops, replies).queue
    decreases |ops|
  {
    if ops != [] {
      var n := |ops| - 1;
      var v' := AfterAll(v, max, ops[..n], replies[..n]);
      FirstInFirstOut(v, max, ops[..n], replies[..n]);
      OneStep(v', max, ops[n], replies[n]);
      Regroup(v.queue, AddedByAll(ops[..n], replies[..n]), Added(ops[n], replies[n]),
              TakenByAll(v, max, ops[..n], replies[..n]), v'.queue, Taken(v', ops[n]));
    }
  }

  /** The bytes a caller is shown by a get or a peek. */
  function Shown(reply: Reply): seq<Byte> {
    if reply.Read? && reply.c.Char? then [reply.c.c] else []
  }

  /** A harmless operation takes from the front and appends at the back, and does nothing else to the
      queue.  A get shows what it takes, a peek what a get would take, and an operation fails exactly when
      what it asks for does not fit. */
  lemma OneStep(v: View, max: nat, op: Op, reply: Reply)
    requires v.Fits(max) && Permitted(v, max, op, reply) && Harmless(v, op, reply)
    ensures Next(v, max, op, reply).queue == v.queue[Taken(v, op)..] + Added(op, reply)
    ensures op.Get? ==> Shown(reply) == v.queue[..Taken(v, op)] && |Shown(reply)| == Min(1, |v.queue|)
    ensures op.Peek? ==> Shown(reply) == v.queue[..Min(1, |v.queue|)]
    ensures reply == Failed <==>
              (op.Prepare? && |v.queue| + op.n > max) || (op.Put? && |v.queue| + 1 > max)
    ensures op.Commit? ==> |v.queue| + |Added(op, reply)| == |v.queue| + Min(op.n, v.room)
    ensures op.Commit? && |v.filled| >= op.n ==> Added(op, reply) == v.filled[..op.n]
  {
  }

  lemma Regroup(q: seq<Byte>, added: seq<Byte>, more: seq<Byte>, taken: seq<Byte>, left: seq<Byte>, k: nat)
    requires k <= |left| && q + added == taken + left
    ensures q + (added + more) == (taken + left[..k]) + (left[k..] + more)
  {
    assert left == left[..k] + left[k..];
    assert q + (added + more) == (taken + left) + more;
  }
}
