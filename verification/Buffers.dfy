/** Buffers over a flat memory: the value types of asio/buffer.hpp.

    A buffer is an address and a size into one memory, so aliasing between buffers is aliasing
    between address ranges.  A buffer sequence denotes the list of its addresses, in order; that
    list is the flat view every operation of the other asio modules is specified against. */
module Buffers {
  newtype Byte = x: int | 0 <= x < 256

  datatype Buffer = Buffer(data: nat, size: nat) {
    /** The buffer `operator+`: drop the first `start` bytes; too large a start gives the null buffer. */
    function Plus(start: nat): Buffer {
      if start > size then Buffer(0, 0) else Buffer(data + start, size - start)
    }

    /** `buffer(b, max)`: keep at most the first `max` bytes. */
    function Limit(max: nat): Buffer {
      Buffer(data, Min(size, max))
    }
  }

  function Min(a: nat, b: nat): nat {
    if a < b then a else b
  }

  /** The addresses of one buffer. */
  function Range(b: Buffer): (r: seq<int>)
    ensures |r| == b.size
    ensures forall i :: 0 <= i < b.size ==> r[i] == b.data + i
    decreases b.size
  {
    if b.size == 0 then [] else Range(Buffer(b.data, b.size - 1)) + [b.data + b.size - 1]
  }

  /** The bytes before the i-th buffer. */
  function Start(bs: seq<Buffer>, i: nat): nat
    requires i <= |bs|
  {
    if i == 0 then 0 else Start(bs, i - 1) + bs[i - 1].size
  }

  /** The addresses the first i buffers cover, in order. */
  function FirstAddresses(bs: seq<Buffer>, i: nat): (r: seq<int>)
    requires i <= |bs|
    ensures |r| == Start(bs, i)
  {
    if i == 0 then [] else FirstAddresses(bs, i - 1) + Range(bs[i - 1])
  }

  /** The addresses a buffer sequence covers, in order: its flat view. */
  function Addresses(bs: seq<Buffer>): seq<int> {
    FirstAddresses(bs, |bs|)
  }

  function Total(bs: seq<Buffer>): nat {
    |Addresses(bs)|
  }

  ghost predicate Within(addrs: seq<int>, n: nat) {
    forall i :: 0 <= i < |addrs| ==> 0 <= addrs[i] < n
  }

  ghost predicate Distinct(addrs: seq<int>) {
    forall i, j :: 0 <= i < j < |addrs| ==> addrs[i] != addrs[j]
  }

  ghost predicate Disjoint(a: seq<int>, b: seq<int>) {
    forall x :: x in a ==> x !in b
  }

  /** Positions p .. p + k - 1 of a flat view are the consecutive addresses from `start` on. */
  ghost predicate Contiguous(addrs: seq<int>, p: nat, start: nat, k: nat) {
    && p + k <= |addrs|
    && forall j :: p <= j < p + k ==> addrs[j] == start + (j - p)
  }

  /** The bytes found at a list of addresses. */
  function Gather(mem: seq<Byte>, addrs: seq<int>): seq<Byte>
    requires Within(addrs, |mem|)
  {
    seq(|addrs|, i requires 0 <= i < |addrs| => mem[addrs[i]])
  }

  /** The number of bytes of a buffer sequence, summed buffer by buffer. */
  method BufferSize(bs: seq<Buffer>) returns (total: nat)
    ensures total == Total(bs)
  {
    total := 0;
    for i := 0 to |bs|
      invariant total == Start(bs, i)
    {
      total := total + bs[i].size;
    }
  }

  lemma {:induction false} FirstAddressesPrefix(bs: seq<Buffer>, i: nat, j: nat)
    requires i <= j <= |bs|
    ensures FirstAddresses(bs, i) <= FirstAddresses(bs, j) && Start(bs, i) <= Start(bs, j)
    decreases j
  {
    if i < j {
      FirstAddressesPrefix(bs, i, j - 1);
    }
  }

  /** Where the i-th buffer lies in the flat view. */
  lemma BufferWindow(bs: seq<Buffer>, i: nat)
    requires i < |bs|
    ensures Start(bs, i + 1) == Start(bs, i) + bs[i].size <= Total(bs)
    ensures Contiguous(Addresses(bs), Start(bs, i), bs[i].data, bs[i].size)
  {
    FirstAddressesPrefix(bs, i + 1, |bs|);
    InnerRange(Addresses(bs), FirstAddresses(bs, i), bs[i]);
  }

  lemma InnerRange(all: seq<int>, before: seq<int>, b: Buffer)
    requires before + Range(b) <= all
    ensures Contiguous(all, |before|, b.data, b.size)
  {
  }

  lemma RangeRest(b: Buffer, p: nat)
    requires p <= b.size
    ensures Contiguous(Range(b), p, b.Plus(p).data, b.Plus(p).size)
  {
  }

  /** Adding to a buffer drops that many of its bytes from the front, all of them when it goes past the
      end. */
  lemma PlusDrops(b: Buffer, n: nat)
    ensures Range(b.Plus(n)) == Range(b)[Min(n, b.size)..]
  {
    hide Range;
    var rest, k := Range(b.Plus(n)), Min(n, b.size);
    assert |rest| == b.size - k;
    if n <= b.size {
      forall i | 0 <= i < |rest|
        ensures rest[i] == Range(b)[k..][i]
      {
        assert Range(b)[k..][i] == Range(b)[k + i] == b.data + k + i;
      }
    }
  }

  /** Limiting a buffer keeps that many of its bytes, all of them when there are no more. */
  lemma LimitKeeps(b: Buffer, n: nat)
    ensures Range(b.Limit(n)) == Range(b)[..Min(n, b.size)]
  {
    var kept := Range(b.Limit(n));
    assert forall i :: 0 <= i < |kept| ==> kept[i] == Range(b)[i];
  }
}
