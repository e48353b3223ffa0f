/** The random-access iterator of asio/buffers_iterator.hpp.

    It walks a list of possibly empty buffers and has to behave like an index into their bytes laid end
    to end.  Its state is redundant: an absolute position, the buffer it is in, a copy of that buffer
    and the offset inside it.  `Valid` says the four agree; every move is proved to keep it. */
module BuffersIterator {
  import opened Buffers

  /** Buffer index `cur` and offset `off` are the canonical place of byte p: inside a non-empty buffer
      below the total size, one past the last buffer at the total size. */
  ghost predicate Canonical(bs: seq<Buffer>, p: nat, cur: nat, off: nat) {
    && cur <= |bs|
    && p == Start(bs, cur) + off
    && if cur < |bs| then off < bs[cur].size else off == 0
  }

  class BuffersIterator {
    const buffers: seq<Buffer>
    var currentBuffer: Buffer
    var currentBufferPosition: nat
    var current: nat
    var position: nat

    ghost predicate Valid()
      reads this
    {
      && Canonical(buffers, position, current, currentBufferPosition)
      && (current < |buffers| ==> currentBuffer == buffers[current])
    }

    constructor Begin(bs: seq<Buffer>)
      ensures Valid() && buffers == bs && position == 0
    {
      buffers := bs;
      currentBuffer := Buffer(0, 0);
      currentBufferPosition, current, position := 0, 0, 0;
      new;
      while current != |buffers|
        invariant buffers == bs && position == currentBufferPosition == 0
        invariant current <= |buffers| && Start(buffers, current) == 0
        decreases |buffers| - current
      {
        currentBuffer := buffers[current];
        if currentBuffer.size > 0 {
          break;
        }
        current := current + 1;
      }
    }

    constructor End(bs: seq<Buffer>)
      ensures Valid() && buffers == bs && position == Total(bs)
    {
      buffers := bs;
      currentBuffer := Buffer(0, 0);
      currentBufferPosition, current, position := 0, 0, 0;
      new;
      while current != |buffers|
        invariant buffers == bs && currentBufferPosition == 0
        invariant current <= |buffers| && Start(buffers, current) == position
        decreases |buffers| - current
      {
        position := position + buffers[current].size;
        current := current + 1;
      }
    }

    constructor Copy(other: BuffersIterator)
      requires other.Valid()
      ensures Valid() && buffers == other.buffers && position == other.position
    {
      buffers := other.buffers;
      currentBuffer := other.currentBuffer;
      currentBufferPosition := other.currentBufferPosition;
      current := other.current;
      position := other.position;
    }

    method Increment()
      requires Valid() && position < Total(buffers)
      modifies this
      ensures Valid() && position == old(position) + 1
    {
      assert current != |buffers|;
      position := position + 1;
      currentBufferPosition := currentBufferPosition + 1;
      if currentBufferPosition != currentBuffer.size {
        return;
      }
      current := current + 1;
      currentBufferPosition := 0;
      while current != |buffers|
        invariant position == old(position) + 1 && currentBufferPosition == 0
        invariant current <= |buffers| && Start(buffers, current) == position
        decreases |buffers| - current
      {
        currentBuffer := buffers[current];
        if currentBuffer.size > 0 {
          return;
        }
        current := current + 1;
      }
    }

    method Decrement()
      requires Valid() && position > 0
      modifies this
      ensures Valid() && position == old(position) - 1
    {
      position := position - 1;
      if currentBufferPosition != 0 {
        currentBufferPosition := currentBufferPosition - 1;
        return;
      }
      var iter := current;
      while iter != 0
        invariant 0 <= iter <= current == old(current) && Start(buffers, iter) == position + 1
        invariant position == old(position) - 1 && currentBufferPosition == 0
      {
        iter := iter - 1;
        var buffer := buffers[iter];
        if buffer.size > 0 {
          current := iter;
          currentBuffer := buffer;
          currentBufferPosition := buffer.size - 1;
          return;
        }
      }
    }

    /** Move by n, whole buffers at a time.  The source's three bounds assertions hold and both searches
        terminate. */
    method Advance(n: int)
      requires Valid() && 0 <= position + n <= Total(buffers)
      modifies this
      ensures Valid() && position == old(position) + n
    {
      if n > 0 {
        assert current != |buffers|;
        AdvanceForward(n);
      } else if n < 0 {
        AdvanceBackward(-n);
      }
    }

    method AdvanceForward(distance: nat)
      requires Valid() && distance > 0 && position + distance <= Total(buffers)
      modifies this
      ensures Valid() && position == old(position) + distance
    {
      var n: int := distance;
      while true
        invariant current < |buffers| && currentBuffer == buffers[current]
        invariant position == Start(buffers, current) + currentBufferPosition
        invariant currentBufferPosition <= currentBuffer.size
        invariant n >= 0 && position + n == old(position) + distance
        decreases |buffers| - current
      {
        var currentBufferBalance := currentBuffer.size - currentBufferPosition;
        if currentBufferBalance > n {
          position := position + n;
          currentBufferPosition := currentBufferPosition + n;
          return;
        }
        BufferWindow(buffers, current);
        n := n - currentBufferBalance;
        position := position + currentBufferBalance;
        current := current + 1;
        if current == |buffers| {
          assert n == 0;
          currentBuffer := Buffer(0, 0);
          currentBufferPosition := 0;
          return;
        }
        currentBuffer := buffers[current];
        currentBufferPosition := 0;
      }
    }

    method AdvanceBackward(distance: nat)
      requires Valid() && distance > 0 && position >= distance
      modifies this
      ensures Valid() && position == old(position) - distance
    {
      var n := distance;
      while true
        invariant current <= |buffers| && n > 0
        invariant position == Start(buffers, current) + currentBufferPosition
        invariant if current < |buffers|
                  then currentBuffer == buffers[current] && currentBufferPosition < currentBuffer.size + n
                  else currentBufferPosition == 0
        invariant position >= n && position - n == old(position) - distance
        decreases current
      {
        if currentBufferPosition >= n {
          position := position - n;
          currentBufferPosition := currentBufferPosition - n;
          return;
        }
        n := n - currentBufferPosition;
        position := position - currentBufferPosition;
        assert current != 0;
        var iter := current;
        ghost var cur := current;
        while iter != 0
          invariant 0 <= iter <= current == cur && Start(buffers, iter) == position
        {
          iter := iter - 1;
          var buffer := buffers[iter];
          if buffer.size > 0 {
            current := iter;
            currentBuffer := buffer;
            currentBufferPosition := buffer.size;
            break;
          }
        }
      }
    }

    /** `it += n`. */
    method AddAssign(n: int)
      requires Valid() && 0 <= position + n <= Total(buffers)
      modifies this
      ensures Valid() && position == old(position) + n
    {
      Advance(n);
    }

    /** `it -= n`. */
    method SubtractAssign(n: int)
      requires Valid() && 0 <= position - n <= Total(buffers)
      modifies this
      ensures Valid() && position == old(position) - n
    {
      Advance(-n);
    }

    /** `it + n`: a moved copy, at distance n from this one. */
    method Plus(n: int) returns (tmp: BuffersIterator)
      requires Valid() && 0 <= position + n <= Total(buffers)
      ensures fresh(tmp) && tmp.Valid() && tmp.buffers == buffers
      ensures tmp.position == position + n && DistanceTo(tmp) == n && tmp.DistanceTo(this) == -n
    {
      tmp := new BuffersIterator.Copy(this);
      tmp.Advance(n);
    }

    /** `it - n`: a copy moved back, at distance -n from this one. */
    method Minus(n: int) returns (tmp: BuffersIterator)
      requires Valid() && 0 <= position - n <= Total(buffers)
      ensures fresh(tmp) && tmp.Valid() && tmp.buffers == buffers
      ensures tmp.position == position - n && DistanceTo(tmp) == -n && tmp.DistanceTo(this) == n
    {
      tmp := new BuffersIterator.Copy(this);
      tmp.Advance(-n);
    }

    /** `*it`: the byte of the flat view at the iterator's position. */
    method Dereference(mem: array<Byte>) returns (b: Byte)
      requires Valid() && position < Total(buffers) && Within(Addresses(buffers), mem.Length)
      ensures b == Gather(mem[..], Addresses(buffers))[position]
    {
      CanonicalByte(buffers, position, current, currentBufferPosition);
      b := mem[currentBuffer.data + currentBufferPosition];
    }

    /** `it[n]`: the byte n positions away, through a moved copy. */
    method At(mem: array<Byte>, n: int) returns (b: Byte)
      requires Valid() && 0 <= position + n < Total(buffers) && Within(Addresses(buffers), mem.Length)
      ensures b == Gather(mem[..], Addresses(buffers))[position + n]
    {
      var tmp := new BuffersIterator.Copy(this);
      tmp.Advance(n);
      b := tmp.Dereference(mem);
    }

    /** `other - it`. */
    function DistanceTo(other: BuffersIterator): int
      reads this, other
    {
      other.position - position
    }

    predicate Equal(other: BuffersIterator)
      reads this, other
    {
      position == other.position
    }
  }

  /** A position has one canonical place, so comparing positions compares places. */
  lemma CanonicalUnique(bs: seq<Buffer>, p: nat, cur: nat, off: nat, cur': nat, off': nat)
    requires Canonical(bs, p, cur, off) && Canonical(bs, p, cur', off')
    ensures cur == cur' && off == off'
  {
    CanonicalIsLast(bs, p, cur, off, cur', off');
    CanonicalIsLast(bs, p, cur', off', cur, off);
  }

  /** No later buffer than the canonical one begins at or before the position. */
  lemma CanonicalIsLast(bs: seq<Buffer>, p: nat, cur: nat, off: nat, cur': nat, off': nat)
    requires Canonical(bs, p, cur, off) && cur' <= |bs| && p == Start(bs, cur') + off'
    ensures cur' <= cur
  {
    if cur < cur' {
      FirstAddressesPrefix(bs, cur + 1, cur');
    }
  }

  lemma CanonicalBound(bs: seq<Buffer>, p: nat, cur: nat, off: nat)
    requires Canonical(bs, p, cur, off)
    ensures p <= Total(bs)
  {
    if cur < |bs| {
      BufferWindow(bs, cur);
    }
  }

  /** The canonical place of byte p holds byte p of the flat view. */
  lemma CanonicalByte(bs: seq<Buffer>, p: nat, cur: nat, off: nat)
    requires Canonical(bs, p, cur, off) && p < Total(bs)
    ensures cur < |bs| && Addresses(bs)[p] == bs[cur].data + off
  {
    if cur < |bs| {
      BufferWindow(bs, cur);
    }
  }

  /** Equal iterators over the same buffers are in the same buffer at the same offset. */
  lemma EqualMeansSamePlace(a: BuffersIterator, b: BuffersIterator)
    requires a.Valid() && b.Valid() && a.buffers == b.buffers
    ensures a.Equal(b) <==> a.current == b.current && a.currentBufferPosition == b.currentBufferPosition
  {
    if a.Equal(b) {
      CanonicalUnique(a.buffers, a.position, a.current, a.currentBufferPosition, b.current, b.currentBufferPosition);
    }
  }

  /** From begin to end is the size of the buffer sequence, and begin[k] is byte k. */
  method FlatView(bs: seq<Buffer>, mem: array<Byte>) returns (distance: int, bytes: seq<Byte>)
    requires Within(Addresses(bs), mem.Length)
    ensures distance == Total(bs) && bytes == Gather(mem[..], Addresses(bs))
  {
    var begin := new BuffersIterator.Begin(bs);
    var end := new BuffersIterator.End(bs);
    distance := begin.DistanceTo(end);
    bytes := [];
    for k := 0 to distance
      invariant begin.Valid() && begin.buffers == bs && begin.position == 0
      invariant bytes == Gather(mem[..], Addresses(bs))[..k]
    {
      var b := begin.At(mem, k);
      bytes := bytes + [b];
    }
  }

  /** Advancing by n ends in the same place as |n| single steps. */
  method AdvanceIsSteps(a: BuffersIterator, b: BuffersIterator, n: int)
    requires a != b && a.Valid() && b.Valid() && a.buffers == b.buffers && a.Equal(b)
    requires 0 <= a.position + n <= Total(a.buffers)
    modifies a, b
    ensures a.Valid() && b.Valid() && a.Equal(b) && a.position == old(a.position) + n
    ensures a.current == b.current && a.currentBufferPosition == b.currentBufferPosition
  {
    a.Advance(n);
    var k := 0;
    while k != n
      invariant b.Valid() && b.position == old(b.position) + k
      invariant a.Valid() && a.position == old(a.position) + n
      invariant 0 <= k <= n || n <= k <= 0
      decreases if n < k then k - n else n - k
    {
      if n > 0 {
        b.Increment();
        k := k + 1;
      } else {
        b.Decrement();
        k := k - 1;
      }
    }
    EqualMeansSamePlace(a, b);
  }

  /** Advancing by -n undoes advancing by n. */
  method AdvanceUndone(a: BuffersIterator, n: int)
    requires a.Valid() && 0 <= a.position + n <= Total(a.buffers)
    modifies a
    ensures a.Valid() && a.position == old(a.position)
    ensures a.current == old(a.current) && a.currentBufferPosition == old(a.currentBufferPosition)
  {
    ghost var cur, off := a.current, a.currentBufferPosition;
    CanonicalBound(a.buffers, a.position, cur, off);
    a.Advance(n);
    a.Advance(-n);
    CanonicalUnique(a.buffers, a.position, a.current, a.currentBufferPosition, cur, off);
  }

  datatype Move = Increment | Decrement | Plus(n: int) | Minus(n: int) {
    function By(): int {
      match this
      case Increment => 1
      case Decrement => -1
      case Plus(n) => n
      case Minus(n) => -n
    }
  }

  /** Where a list of moves leads, and whether it stays inside the sequence on the way. */
  ghost function Destination(p: int, moves: seq<Move>): int
    decreases |moves|
  {
    if moves == [] then p else Destination(p + moves[0].By(), moves[1..])
  }

  ghost predicate InRange(p: int, moves: seq<Move>, total: nat)
    decreases |moves|
  {
    moves != [] ==> 0 <= p + moves[0].By() <= total && InRange(p + moves[0].By(), moves[1..], total)
  }

  /** Any mix of in-range moves from a valid iterator, hence any from begin or end, keeps it canonical
      and leads where the moves add up to. */
  method Walk(it: BuffersIterator, moves: seq<Move>)
    requires it.Valid() && InRange(it.position, moves, Total(it.buffers))
    modifies it
    ensures it.Valid() && it.position == Destination(old(it.position), moves)
  {
    var i := 0;
    while i < |moves|
      invariant 0 <= i <= |moves| && it.Valid()
      invariant InRange(it.position, moves[i..], Total(it.buffers))
      invariant Destination(it.position, moves[i..]) == Destination(old(it.position), moves)
    {
      assert moves[i..][0] == moves[i] && moves[i..][1..] == moves[i + 1..];
      match moves[i] {
        case Increment => it.Increment();
        case Decrement => it.Decrement();
        case Plus(n) => it.AddAssign(n);
        case Minus(n) => it.SubtractAssign(n);
      }
      i := i + 1;
    }
  }
}
