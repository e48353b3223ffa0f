/** Scatter/gather copying: the buffer_copy family of asio/buffer.hpp.

    Memory is one array; `FlatCopy` says, in terms of the flat views alone, what memory is after
    moving the first n bytes of a source into a target.  Every overload is proved against it, and
    the lemmas at the end say what it means for a reader of the target. */
module BufferCopy {
  import opened Buffers

  /** Memory after the original bytes at ss[0], ..., ss[n-1] are written to ts[0], ..., ts[n-1], in
      that order. */
  ghost function FlatCopy(mem: seq<Byte>, ts: seq<int>, ss: seq<int>, n: nat): (r: seq<Byte>)
    requires Within(ts, |mem|) && Within(ss, |mem|) && n <= |ts| && n <= |ss|
    ensures |r| == |mem|
  {
    if n == 0 then mem else FlatCopy(mem, ts, ss, n - 1)[ts[n - 1] := mem[ss[n - 1]]]
  }

  /** Both flat views lie in memory and, as memcpy demands, the source does not overlap the target.
      Buffers on one side may overlap each other. */
  ghost predicate Copyable(size: nat, ts: seq<int>, ss: seq<int>) {
    Within(ts, size) && Within(ss, size) && Disjoint(ts, ss)
  }

  ghost predicate InMemory(start: nat, n: nat, size: nat) {
    n == 0 || start + n <= size
  }

  ghost predicate Apart(a: nat, b: nat, n: nat) {
    n == 0 || a + n <= b || b + n <= a
  }

  /** `now` is `was` with one block of n bytes moved. */
  ghost predicate BlockMoved(was: seq<Byte>, now: seq<Byte>, target: nat, source: nat, n: nat)
    requires InMemory(target, n, |was|) && InMemory(source, n, |was|)
  {
    && |now| == |was|
    && (forall i :: target <= i < target + n ==> now[i] == was[source + (i - target)])
    && (forall i :: 0 <= i < |was| && !(target <= i < target + n) ==> now[i] == was[i])
  }

  method Memcpy(mem: array<Byte>, target: nat, source: nat, n: nat)
    requires InMemory(target, n, mem.Length) && InMemory(source, n, mem.Length) && Apart(target, source, n)
    modifies mem
    ensures BlockMoved(old(mem[..]), mem[..], target, source, n)
  {
    forall i | 0 <= i < n {
      mem[target + i] := mem[source + i];
    }
  }

  /** One buffer to one buffer. */
  method CopyBuffer(mem: array<Byte>, target: Buffer, source: Buffer) returns (n: nat)
    requires var n := Min(target.size, source.size);
      && InMemory(target.data, n, mem.Length) && InMemory(source.data, n, mem.Length)
      && Apart(target.data, source.data, n)
    modifies mem
    ensures n == Min(target.size, source.size)
    ensures BlockMoved(old(mem[..]), mem[..], target.data, source.data, n)
  {
    n := if target.size < source.size then target.size else source.size;
    Memcpy(mem, target.data, source.data, n);
  }

  /** Consecutive stretches of disjoint flat views are fit for memcpy. */
  lemma StretchesFitMemcpy(size: nat, ts: seq<int>, ss: seq<int>, p: nat, t: nat, s: nat, k: nat)
    requires Copyable(size, ts, ss)
    requires Contiguous(ts, p, t, k) && Contiguous(ss, p, s, k)
    ensures InMemory(t, k, size) && InMemory(s, k, size) && Apart(t, s, k)
  {
    if k > 0 {
      assert ts[p + k - 1] == t + k - 1 && ss[p + k - 1] == s + k - 1;
      if t <= s < t + k {
        NoSharedByte(ts, ss, p, t, s, k, s - t, 0);
      } else if s <= t < s + k {
        NoSharedByte(ts, ss, p, t, s, k, 0, t - s);
      }
    }
  }

  lemma NoSharedByte(ts: seq<int>, ss: seq<int>, p: nat, t: nat, s: nat, k: nat, i: nat, j: nat)
    requires Contiguous(ts, p, t, k) && Contiguous(ss, p, s, k) && Disjoint(ts, ss) && i < k && j < k
    ensures t + i != s + j
  {
    assert ts[p + i] == t + i && ss[p + j] == s + j;
    assert ts[p + i] in ts && ss[p + j] in ss;
  }

  /** Writing to the target leaves the bytes of the source, and every other byte, as they were. */
  lemma {:induction false} FlatCopyFrame(mem: seq<Byte>, ts: seq<int>, ss: seq<int>, n: nat, a: nat)
    requires Within(ts, |mem|) && Within(ss, |mem|) && n <= |ts| && n <= |ss|
    requires a < |mem| && a !in ts[..n]
    ensures FlatCopy(mem, ts, ss, n)[a] == mem[a]
  {
    if n > 0 {
      assert ts[n - 1] in ts[..n];
      FlatCopyFrame(mem, ts, ss, n - 1, a);
    }
  }

  /** One step of every copying loop, seen from the flat views: with p bytes copied and both cursors on
      byte p, moving a block of k bytes makes the flat copy of p + k bytes. */
  lemma {:induction false} BlockExtends(mem: seq<Byte>, was: seq<Byte>, now: seq<Byte>, ts: seq<int>, ss: seq<int>,
                                        p: nat, t: nat, s: nat, k: nat)
    requires Copyable(|mem|, ts, ss)
    requires Contiguous(ts, p, t, k) && Contiguous(ss, p, s, k)
    requires InMemory(t, k, |mem|) && InMemory(s, k, |mem|)
    requires was == FlatCopy(mem, ts, ss, p) && BlockMoved(was, now, t, s, k)
    ensures now == FlatCopy(mem, ts, ss, p + k)
    decreases k
  {
    if k == 0 {
      assert now == was;
    } else {
      var t', s' := t + (k - 1), s + (k - 1);
      var before := now[t' := was[t']];
      BlockExtends(mem, was, before, ts, ss, p, t, s, k - 1);
      assert ts[p + k - 1] == t' && ss[p + k - 1] == s';
      assert s' in ss && s' !in ts;
      FlatCopyFrame(mem, ts, ss, p, s');
      assert now == before[t' := mem[s']];
    }
  }

  /** Cursor `off` bytes into the i-th buffer stands on byte p of the flat view. */
  ghost predicate Cursor(bs: seq<Buffer>, i: nat, off: nat, p: nat) {
    && i <= |bs|
    && p == Start(bs, i) + off <= Total(bs)
    && if i < |bs| then off <= bs[i].size else off == 0 && p == Total(bs)
  }

  lemma CursorSkips(bs: seq<Buffer>, i: nat, p: nat)
    requires Cursor(bs, i, 0, p) && i < |bs|
    ensures Cursor(bs, i + 1, 0, p + bs[i].size)
    ensures Contiguous(Addresses(bs), p, bs[i].data, bs[i].size)
  {
    BufferWindow(bs, i);
  }

  /** Where the bytes from the cursor on lie. */
  lemma CursorWindow(bs: seq<Buffer>, i: nat, off: nat, p: nat)
    requires Cursor(bs, i, off, p) && i < |bs|
    ensures off + bs[i].Plus(off).size == bs[i].size
    ensures Contiguous(Addresses(bs), p, bs[i].Plus(off).data, bs[i].Plus(off).size)
  {
    BufferWindow(bs, i);
  }

  lemma CursorBound(bs: seq<Buffer>, i: nat, off: nat, p: nat)
    requires Cursor(bs, i, off, p)
    ensures i <= |bs| && p <= Total(bs) && (i == |bs| ==> p == Total(bs))
  {
  }

  /** Move a cursor over n bytes of the buffer it is in. */
  method MoveCursor(bs: seq<Buffer>, i: nat, off: nat, n: nat, ghost p: nat) returns (i': nat, off': nat)
    requires Cursor(bs, i, off, p) && i < |bs| && off + n <= bs[i].size
    ensures Cursor(bs, i', off', p + n)
    ensures i' == (if n == bs[i].size - off then i + 1 else i) <= |bs|
  {
    BufferWindow(bs, i);
    if n == bs[i].Plus(off).size {
      i', off' := i + 1, 0;
    } else {
      i', off' := i, off + n;
    }
  }

  /** One step of every copying loop: with p bytes of the flat copy done and both buffers starting at
      byte p of their views, copying one buffer to the other extends the flat copy. */
  method CopyBlock(mem: array<Byte>, target: Buffer, source: Buffer,
                   ghost was: seq<Byte>, ghost ts: seq<int>, ghost ss: seq<int>, ghost p: nat) returns (n: nat)
    requires |was| == mem.Length && Copyable(mem.Length, ts, ss)
    requires Contiguous(ts, p, target.data, target.size) && Contiguous(ss, p, source.data, source.size)
    requires mem[..] == FlatCopy(was, ts, ss, p)
    modifies mem
    ensures n == Min(target.size, source.size) && (n == target.size || n == source.size)
    ensures p + n <= |ts| && p + n <= |ss|
    ensures mem[..] == FlatCopy(was, ts, ss, p + n)
  {
    ghost var before := mem[..];
    StretchesFitMemcpy(mem.Length, ts, ss, p, target.data, source.data, Min(target.size, source.size));
    n := CopyBuffer(mem, target, source);
    BlockExtends(was, before, mem[..], ts, ss, p, target.data, source.data, n);
  }

  /** The same step under a limit: the target is shortened first. */
  method CopyBlockLimited(mem: array<Byte>, target: Buffer, source: Buffer, max: nat,
                          ghost was: seq<Byte>, ghost ts: seq<int>, ghost ss: seq<int>, ghost p: nat)
    returns (n: nat)
    requires |was| == mem.Length && Copyable(mem.Length, ts, ss)
    requires Contiguous(ts, p, target.data, target.size) && Contiguous(ss, p, source.data, source.size)
    requires mem[..] == FlatCopy(was, ts, ss, p)
    modifies mem
    ensures n == Min(Min(target.size, max), source.size) && p + n <= |ts| && p + n <= |ss|
    ensures mem[..] == FlatCopy(was, ts, ss, p + n)
  {
    n := CopyBlock(mem, target.Limit(max), source, was, ts, ss, p);
  }

  /** One buffer sequence to another. */
  method CopySequences(mem: array<Byte>, target: seq<Buffer>, source: seq<Buffer>) returns (total: nat)
    requires Copyable(mem.Length, Addresses(target), Addresses(source))
    modifies mem
    ensures total == Min(Total(target), Total(source))
    ensures mem[..] == FlatCopy(old(mem[..]), Addresses(target), Addresses(source), total)
  {
    ghost var was, ts, ss := mem[..], Addresses(target), Addresses(source);
    total := 0;
    assert mem[..] == FlatCopy(was, ts, ss, 0);
    assert Cursor(target, 0, 0, 0) && Cursor(source, 0, 0, 0);
    hide FlatCopy, Within, Disjoint, Contiguous, FirstAddresses, Cursor;
    var ti, tOff, si, sOff := 0, 0, 0, 0;
    while ti < |target| && si < |source|
      invariant ti <= |target| && si <= |source|
      invariant Cursor(target, ti, tOff, total) && Cursor(source, si, sOff, total)
      invariant mem[..] == FlatCopy(was, ts, ss, total)
      decreases |target| - ti + |source| - si
    {
      var t, s := target[ti].Plus(tOff), source[si].Plus(sOff);
      CursorWindow(target, ti, tOff, total);
      CursorWindow(source, si, sOff, total);
      var n := CopyBlock(mem, t, s, was, ts, ss, total);
      ti, tOff := MoveCursor(target, ti, tOff, n, total);
      si, sOff := MoveCursor(source, si, sOff, n, total);
      total := total + n;
    }
    CursorBound(target, ti, tOff, total);
    CursorBound(source, si, sOff, total);
  }

  /** One buffer sequence to another, at most `max` bytes.  A step that uses up neither buffer has
      reached the limit. */
  method CopySequencesLimited(mem: array<Byte>, target: seq<Buffer>, source: seq<Buffer>, max: nat)
    returns (total: nat)
    requires Copyable(mem.Length, Addresses(target), Addresses(source))
    modifies mem
    ensures total == Min(Min(Total(target), Total(source)), max)
    ensures mem[..] == FlatCopy(old(mem[..]), Addresses(target), Addresses(source), total)
  {
    ghost var was, ts, ss := mem[..], Addresses(target), Addresses(source);
    total := 0;
    assert mem[..] == FlatCopy(was, ts, ss, 0);
    assert Cursor(target, 0, 0, 0) && Cursor(source, 0, 0, 0);
    hide FlatCopy, Within, Disjoint, Contiguous, FirstAddresses, Cursor;
    var ti, tOff, si, sOff := 0, 0, 0, 0;
    while total != max && ti < |target| && si < |source|
      invariant ti <= |target| && si <= |source|
      invariant Cursor(target, ti, tOff, total) && Cursor(source, si, sOff, total)
      invariant total <= max
      invariant mem[..] == FlatCopy(was, ts, ss, total)
      decreases |target| - ti + |source| - si + (if total != max then 1 else 0)
    {
      var t, s := target[ti].Plus(tOff), source[si].Plus(sOff);
      CursorWindow(target, ti, tOff, total);
      CursorWindow(source, si, sOff, total);
      var n := CopyBlockLimited(mem, t, s, max - total, was, ts, ss, total);
      ti, tOff := MoveCursor(target, ti, tOff, n, total);
      si, sOff := MoveCursor(source, si, sOff, n, total);
      total := total + n;
    }
    CursorBound(target, ti, tOff, total);
    CursorBound(source, si, sOff, total);
  }

  /** A buffer sequence into one buffer, which shrinks from the front. */
  method CopyToBuffer(mem: array<Byte>, target: Buffer, source: seq<Buffer>) returns (total: nat)
    requires Copyable(mem.Length, Range(target), Addresses(source))
    modifies mem
    ensures total == Min(target.size, Total(source))
    ensures mem[..] == FlatCopy(old(mem[..]), Range(target), Addresses(source), total)
  {
    ghost var was, ts, ss := mem[..], Range(target), Addresses(source);
    total := 0;
    assert mem[..] == FlatCopy(was, ts, ss, 0);
    assert Cursor(source, 0, 0, 0);
    hide FlatCopy, Within, Disjoint, Contiguous, FirstAddresses, Range, Cursor;
    var rest, si := target, 0;
    while rest.size > 0 && si < |source|
      invariant total <= target.size && rest == Buffer(target.data + total, target.size - total)
      invariant si <= |source| && (rest.size > 0 ==> Cursor(source, si, 0, total))
      invariant total <= |ss|
      invariant mem[..] == FlatCopy(was, ts, ss, total)
    {
      var s := source[si];
      CursorSkips(source, si, total);
      RangeRest(target, total);
      var n := CopyBlock(mem, rest, s, was, ts, ss, total);
      total := total + n;
      rest := rest.Plus(n);
      si := si + 1;
    }
    if rest.size > 0 {
      CursorBound(source, si, 0, total);
    }
  }

  /** One buffer, which shrinks from the front, into a buffer sequence. */
  method CopyFromBuffer(mem: array<Byte>, target: seq<Buffer>, source: Buffer) returns (total: nat)
    requires Copyable(mem.Length, Addresses(target), Range(source))
    modifies mem
    ensures total == Min(Total(target), source.size)
    ensures mem[..] == FlatCopy(old(mem[..]), Addresses(target), Range(source), total)
  {
    ghost var was, ts, ss := mem[..], Addresses(target), Range(source);
    total := 0;
    assert mem[..] == FlatCopy(was, ts, ss, 0);
    assert Cursor(target, 0, 0, 0);
    hide FlatCopy, Within, Disjoint, Contiguous, FirstAddresses, Range, Cursor;
    var rest, ti := source, 0;
    while rest.size > 0 && ti < |target|
      invariant total <= source.size && rest == Buffer(source.data + total, source.size - total)
      invariant ti <= |target| && (rest.size > 0 ==> Cursor(target, ti, 0, total))
      invariant total <= |ts|
      invariant mem[..] == FlatCopy(was, ts, ss, total)
    {
      var t := target[ti];
      CursorSkips(target, ti, total);
      RangeRest(source, total);
      var n := CopyBlock(mem, t, rest, was, ts, ss, total);
      total := total + n;
      rest := rest.Plus(n);
      ti := ti + 1;
    }
    if rest.size > 0 {
      CursorBound(target, ti, 0, total);
    }
  }

  /** What a copy means: read through the flat views, the target starts with the source's first n bytes
      and keeps its own bytes after them. */
  lemma CopyDelivers(mem: seq<Byte>, ts: seq<int>, ss: seq<int>, n: nat)
    requires Copyable(|mem|, ts, ss) && Distinct(ts) && n <= |ts| && n <= |ss|
    ensures Gather(FlatCopy(mem, ts, ss, n), ts) == Gather(mem, ss)[..n] + Gather(mem, ts)[n..]
  {
    hide FlatCopy, Disjoint, Distinct;
    forall i | 0 <= i < |ts|
      ensures FlatCopy(mem, ts, ss, n)[ts[i]] == if i < n then mem[ss[i]] else mem[ts[i]]
    {
      FlatCopyReads(mem, ts, ss, n, i);
    }
  }

  /** And the source reads as before. */
  lemma CopyKeepsSource(mem: seq<Byte>, ts: seq<int>, ss: seq<int>, n: nat)
    requires Copyable(|mem|, ts, ss) && n <= |ts| && n <= |ss|
    ensures Gather(FlatCopy(mem, ts, ss, n), ss) == Gather(mem, ss)
  {
    forall i | 0 <= i < |ss|
      ensures FlatCopy(mem, ts, ss, n)[ss[i]] == mem[ss[i]]
    {
      assert ss[i] in ss && ss[i] !in ts[..n];
      FlatCopyFrame(mem, ts, ss, n, ss[i]);
    }
  }

  lemma {:induction false} FlatCopyReads(mem: seq<Byte>, ts: seq<int>, ss: seq<int>, n: nat, i: nat)
    requires Copyable(|mem|, ts, ss) && Distinct(ts) && n <= |ts| && n <= |ss| && i < |ts|
    ensures FlatCopy(mem, ts, ss, n)[ts[i]] == if i < n then mem[ss[i]] else mem[ts[i]]
  {
    if n > 0 {
      FlatCopyReads(mem, ts, ss, n - 1, i);
    }
  }

  /** Where buffers of the target overlap each other, the last byte written to an address stands. */
  lemma {:induction false} LastWriteStands(mem: seq<Byte>, ts: seq<int>, ss: seq<int>, n: nat, i: nat)
    requires Copyable(|mem|, ts, ss) && i < n <= |ts| && n <= |ss|
    requires forall j :: i < j < n ==> ts[j] != ts[i]
    ensures FlatCopy(mem, ts, ss, n)[ts[i]] == mem[ss[i]]
  {
    if i < n - 1 {
      LastWriteStands(mem, ts, ss, n - 1, i);
    }
  }
}
