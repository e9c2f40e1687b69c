/**
 The byte ring of src/spsc_buffer.cpp as an object that is updated in place.

 `TryWrite` and `Read` make the source's accesses in the source's order, a `memcpy` byte by byte, and
 between any two of them the other thread runs for as long as it likes. Each access is proved to be the
 machine's step.
 */
module ByteRingObject {
  import opened Words
  import opened Circular
  import opened ByteRing
  import opened Accounting

  /** What reader steps may do while the writer looks away. */
  ghost predicate ReaderRely(s: State, t: State) {
    && Inv(t) && t.size == s.size && t.buf == s.buf && t.p == s.p && t.writer == s.writer
    && Remains(t.q, s.q)
  }

  /** What writer steps may do while the reader looks away. */
  ghost predicate WriterRely(s: State, t: State) {
    Inv(t) && t.size == s.size && t.c == s.c && t.reader == s.reader && s.q <= t.q
  }

  lemma ReaderStepRely(s: State, t: State, want: nat, k: nat)
    requires ReaderRely(s, t)
    ensures Safe(t, MoveReader(want, k)) && ReaderRely(s, ReaderStep(t, want, k))
  {
    InvSafe(t, MoveReader(want, k));
    ReaderKeeps(t, want, k);
  }

  lemma WriterStepRely(s: State, t: State, data: seq<Byte>, k: nat)
    requires WriterRely(s, t) && |data| < W
    ensures Safe(t, MoveWriter(data, k)) && WriterRely(s, WriterStep(t, data, k))
  {
    InvSafe(t, MoveWriter(data, k));
    WriterKeeps(t, data, k);
  }

  /** The writer is in the first or second `memcpy` and has stored the first `upto` bytes of the span. */
  ghost predicate CopyingIn(p: Writer, second: bool, data: seq<Byte>, w: nat, upto: nat) {
    && (if second then p.WSecond? else p.WFirst?) && p.data == data && p.w == w
    && forall k: nat :: k in p.done <==> k < upto
  }

  /** The reader is in the first or second `memcpy` and has fetched the first `upto` bytes. */
  ghost predicate CopyingOut(c: Reader, second: bool, n: nat, r: nat, upto: nat) {
    && (if second then c.RSecond? else c.RFirst?) && c.n == n && c.r == r
    && forall k: nat :: k in c.dst <==> k < upto
  }

  /** A byte still to be copied is copied to its place. */
  lemma PutStep(s: State, k: nat)
    requires Inv(s) && Safe(s, MoveWriter([], k)) && (s.p.WFirst? || s.p.WSecond?) && k !in s.p.done
    requires var first := FirstPart(s.size, s.p.w, |s.p.data|);
             if s.p.WFirst? then k < first else first <= k < |s.p.data|
    ensures k < |s.p.data|
    ensures var i := if s.p.WFirst? then s.p.w + k else k - FirstPart(s.size, s.p.w, |s.p.data|);
            0 <= i < |s.buf| &&
            WriterStep(s, [], k) == s.(buf := s.buf[i := s.p.data[k]],
              p := if s.p.WFirst? then WFirst(s.p.data, s.p.w, s.p.done + {k}) else WSecond(s.p.data, s.p.w, s.p.done + {k}))
  {
  }

  /** A byte still to be fetched is fetched from its place. */
  lemma GetStep(s: State, k: nat)
    requires Inv(s) && Safe(s, MoveReader(0, k)) && (s.c.RFirst? || s.c.RSecond?) && k !in s.c.dst
    requires var first := FirstPart(s.size, s.c.r, s.c.n);
             if s.c.RFirst? then k < first else first <= k < s.c.n
    ensures var i := if s.c.RFirst? then s.c.r + k else k - FirstPart(s.size, s.c.r, s.c.n);
            0 <= i < |s.buf| &&
            ReaderStep(s, 0, k) == s.(c := if s.c.RFirst? then RFirst(s.c.n, s.c.r, s.c.dst[k := s.buf[i]])
                                           else RSecond(s.c.n, s.c.r, s.c.dst[k := s.buf[i]]))
  {
  }

  /** The bytes a read returns are the oldest of the stream. */
  lemma GiveBack(s: State)
    requires Inv(s) && Safe(s, MoveReader(0, 0)) && s.c.RStore?
    ensures s.c.n <= |s.q| && s.q == Returned(s.c.n, s.c.dst) + s.q[s.c.n..]
    ensures var back := if s.c.n <= s.size - s.c.r then (if s.c.r + s.c.n == s.size then 0 else s.c.r + s.c.n)
                        else s.c.n - (s.size - s.c.r);
            back >= 0 && ReaderStep(s, 0, 0) == s.(reader := back, c := RIdle, q := s.q[s.c.n..]) && Inv(ReaderStep(s, 0, 0))
  {
    StepRefines(s, MoveReader(0, 0));
    ReaderKeeps(s, 0, 0);
    assert s.q == Returned(s.c.n, s.c.dst) + s.q[|Returned(s.c.n, s.c.dst)|..];
  }

  lemma CopyingInNext(p: Writer, second: bool, data: seq<Byte>, w: nat, k: nat)
    requires CopyingIn(p, second, data, w, k)
    ensures CopyingIn(if second then WSecond(data, w, p.done + {k}) else WFirst(data, w, p.done + {k}), second, data, w, k + 1)
  {
  }

  class SPSCBuffer {
    const buffer: array<Byte>
    var reader: nat
    var writer: nat
    var p: Writer
    var c: Reader
    ghost var q: seq<Byte>       // the bytes there
    ghost var put: seq<Byte>     // every byte that a store of `writer_` has put in
    ghost var taken: seq<Byte>   // every byte that a store of `reader_` has taken out

    ghost function View(): State
      reads this, buffer
    {
      State(buffer.Length, buffer[..], reader, writer, p, c, q)
    }

    ghost function TheBooks(): Books<Byte>
      reads this
    {
      Books(put, taken, q)
    }

    /** Whatever was put and not taken is there, and nothing else. */
    ghost predicate Valid()
      reads this, buffer
    {
      (Inv(View()) && Accounts(put, taken, q)) == true
    }

    constructor (size: nat)
      requires 2 <= size <= TopBit
      ensures Valid() && fresh(buffer) && buffer.Length == size
      ensures q == [] && put == [] && taken == [] && p == WIdle && c == RIdle
    {
      buffer := new Byte[size](_ => 0);
      reader, writer := 0, 0;
      p, c := WIdle, RIdle;
      q, put, taken := [], [], [];
      new;
      assert AccountsAre(put, taken, q);
    }

    // -------------------------------------------------------------- the writer's accesses

    method LoadWriter(data: seq<Byte>) returns (w: nat)
      requires Valid() && p.WIdle? && |data| < W
      modifies this`p
      ensures Valid() && old(Safe(View(), MoveWriter(data, 0))) && View() == old(WriterStep(View(), data, 0))
      ensures p == WLoadReader(data, w) && w == writer && q == old(q)
    {
      InvSafe(View(), MoveWriter(data, 0));
      WriterKeeps(View(), data, 0);
      w := writer;
      p := WLoadReader(data, w);
    }

    /** The writer's load of `reader_`: the free space it computes from it is exact at that instant. */
    method LoadReaderAsWriter() returns (r: nat)
      requires Valid() && p.WLoadReader?
      modifies this`p
      ensures Valid() && old(Safe(View(), MoveWriter([], 0))) && View() == old(WriterStep(View(), [], 0))
      ensures r == reader && r < buffer.Length <= W && old(p.w) == writer < buffer.Length
      ensures FreeSpace(buffer.Length, writer, r) == buffer.Length - 1 - |q|
      ensures p == if FreeSpace(buffer.Length, writer, r) < |old(p.data)| then WIdle else WFirst(old(p.data), writer, {})
    {
      InvSafe(View(), MoveWriter([], 0));
      WriterKeeps(View(), [], 0);
      FreeSpaceExact(View());
      r := reader;
      p := if FreeSpace(buffer.Length, p.w, r) < |p.data| then WIdle else WFirst(p.data, p.w, {});
    }

    /** `memcpy` stores byte k of the span, in the part before the end of the ring or in the part after it. */
    method PutByte(k: nat)
      requires Valid()
      requires (p.WFirst? && k < FirstPart(buffer.Length, p.w, |p.data|)) ||
               (p.WSecond? && FirstPart(buffer.Length, p.w, |p.data|) <= k < |p.data|)
      requires k !in p.done
      modifies this`p, buffer
      ensures Valid() && old(Safe(View(), MoveWriter([], k))) && View() == old(WriterStep(View(), [], k))
      ensures q == old(q)
      ensures p == if old(p.WFirst?) then WFirst(old(p.data), old(p.w), old(p.done) + {k})
                   else WSecond(old(p.data), old(p.w), old(p.done) + {k})
    {
      InvSafe(View(), MoveWriter([], k));
      WriterKeeps(View(), [], k);
      PutStep(View(), k);
      var first := FirstPart(buffer.Length, p.w, |p.data|);
      var i := if p.WFirst? then p.w + k else k - first;
      buffer[i] := p.data[k];
      p := if p.WFirst? then WFirst(p.data, p.w, p.done + {k}) else WSecond(p.data, p.w, p.done + {k});
    }

    /** A `memcpy` is complete. */
    method EndPut()
      requires Valid()
      requires (p.WFirst? && Done(p.done, 0, FirstPart(buffer.Length, p.w, |p.data|))) ||
               (p.WSecond? && Done(p.done, FirstPart(buffer.Length, p.w, |p.data|), |p.data|))
      modifies this`p
      ensures Valid() && old(Safe(View(), MoveWriter([], 0))) && View() == old(WriterStep(View(), [], 0))
      ensures q == old(q)
      ensures p == if old(p.WFirst?) && !OnePart(buffer.Length, old(p.w), |old(p.data)|)
                   then WSecond(old(p.data), old(p.w), old(p.done)) else WStore(old(p.data), old(p.w), old(p.done))
    {
      InvSafe(View(), MoveWriter([], 0));
      WriterKeeps(View(), [], 0);
      p := if p.WFirst? && !OnePart(buffer.Length, p.w, |p.data|) then WSecond(p.data, p.w, p.done)
           else WStore(p.data, p.w, p.done);
    }

    method StoreWriter(newWriter: nat)
      requires Valid() && p.WStore?
      requires newWriter == if OnePart(buffer.Length, p.w, |p.data|) then p.w + |p.data| else |p.data| - (buffer.Length - p.w)
      modifies this`p, this`writer, this`q, this`put
      ensures Valid() && old(Safe(View(), MoveWriter([], 0))) && View() == old(WriterStep(View(), [], 0))
      ensures p == WIdle && q == old(q) + old(p.data) && put == old(put) + old(p.data)
    {
      InvSafe(View(), MoveWriter([], 0));
      WriterKeeps(View(), [], 0);
      AccountsPut(put, taken, q, p.data);
      writer := newWriter;
      q, put := q + p.data, put + p.data;
      p := WIdle;
    }

    // -------------------------------------------------------------- the reader's accesses

    method LoadReader(want: nat) returns (r: nat)
      requires Valid() && c.RIdle?
      modifies this`c
      ensures Valid() && old(Safe(View(), MoveReader(want, 0))) && View() == old(ReaderStep(View(), want, 0))
      ensures c == RLoadWriter(want, r) && r == reader
    {
      InvSafe(View(), MoveReader(want, 0));
      ReaderKeeps(View(), want, 0);
      r := reader;
      c := RLoadWriter(want, r);
    }

    /** The reader's load of `writer_`: the number of bytes it finds is exact at that instant. */
    method LoadWriterAsReader() returns (w: nat)
      requires Valid() && c.RLoadWriter?
      modifies this`c
      ensures Valid() && old(Safe(View(), MoveReader(0, 0))) && View() == old(ReaderStep(View(), 0, 0))
      ensures w == writer && w < buffer.Length && old(c.r) == reader < buffer.Length
      ensures Available(buffer.Length, w, reader) == |q|
      ensures c == if |q| == 0 then RIdle
                   else RFirst(if |q| <= old(c.want) then |q| else old(c.want), reader, map[])
    {
      InvSafe(View(), MoveReader(0, 0));
      ReaderKeeps(View(), 0, 0);
      w := writer;
      var avail := Available(buffer.Length, w, c.r);
      c := if avail == 0 then RIdle else RFirst(if avail <= c.want then avail else c.want, c.r, map[]);
    }

    /** `memcpy` fetches byte k of the bytes to return. */
    method GetByte(k: nat)
      requires Valid()
      requires (c.RFirst? && k < FirstPart(buffer.Length, c.r, c.n)) ||
               (c.RSecond? && FirstPart(buffer.Length, c.r, c.n) <= k < c.n)
      requires k !in c.dst
      modifies this`c
      ensures Valid() && old(Safe(View(), MoveReader(0, k))) && View() == old(ReaderStep(View(), 0, k))
      ensures if old(c.RFirst?) then c.RFirst? else c.RSecond?
      ensures c.n == old(c.n) && c.r == old(c.r) && c.dst.Keys == old(c.dst.Keys) + {k}
    {
      InvSafe(View(), MoveReader(0, k));
      ReaderKeeps(View(), 0, k);
      GetStep(View(), k);
      var first := FirstPart(buffer.Length, c.r, c.n);
      var i := if c.RFirst? then c.r + k else k - first;
      var dst := c.dst[k := buffer[i]];
      c := if c.RFirst? then RFirst(c.n, c.r, dst) else RSecond(c.n, c.r, dst);
    }

    method EndGet()
      requires Valid()
      requires (c.RFirst? && Done(c.dst.Keys, 0, FirstPart(buffer.Length, c.r, c.n))) ||
               (c.RSecond? && Done(c.dst.Keys, FirstPart(buffer.Length, c.r, c.n), c.n))
      modifies this`c
      ensures Valid() && old(Safe(View(), MoveReader(0, 0))) && View() == old(ReaderStep(View(), 0, 0))
      ensures c == if old(c.RFirst?) && old(c.n) > buffer.Length - old(c.r)
                   then RSecond(old(c.n), old(c.r), old(c.dst)) else RStore(old(c.n), old(c.r), old(c.dst))
    {
      InvSafe(View(), MoveReader(0, 0));
      ReaderKeeps(View(), 0, 0);
      c := if c.RFirst? && c.n > buffer.Length - c.r then RSecond(c.n, c.r, c.dst) else RStore(c.n, c.r, c.dst);
    }

    /** The reader gives the bytes' room back; the bytes it has are the oldest of the stream. */
    method StoreReader(newReader: nat) returns (bytes: seq<Byte>)
      requires Valid() && c.RStore? && c.r < buffer.Length
      requires newReader == if c.n <= buffer.Length - c.r then (if c.r + c.n == buffer.Length then 0 else c.r + c.n)
                            else c.n - (buffer.Length - c.r)
      modifies this`c, this`reader, this`q, this`taken
      ensures Valid() && old(Safe(View(), MoveReader(0, 0))) && View() == old(ReaderStep(View(), 0, 0))
      ensures c == RIdle && |bytes| == old(c.n) && old(q) == bytes + q && taken == old(taken) + bytes
    {
      InvSafe(View(), MoveReader(0, 0));
      GiveBack(View());
      bytes := Returned(c.n, c.dst);
      AccountsTaken(put, taken, q[c.n..], bytes);
      reader := newReader;
      q, taken := q[c.n..], taken + bytes;
      c := RIdle;
    }

    // -------------------------------------------------------------- the other thread

    /** One step of the writer, wherever it stands. */
    method WriterMoves(data: seq<Byte>, k: nat)
      requires Valid() && |data| < W
      modifies this`p, this`writer, this`q, this`put, buffer
      ensures Valid() && WriterRely(old(View()), View())
    {
      match p {
        case WIdle =>
          WriterStepRely(View(), View(), data, 0);
          var _ := LoadWriter(data);
        case WLoadReader(_, _) =>
          WriterStepRely(View(), View(), [], 0);
          var _ := LoadReaderAsWriter();
        case WFirst(d, w, done) =>
          var first := FirstPart(buffer.Length, w, |d|);
          if Done(done, 0, first) {
            WriterStepRely(View(), View(), [], 0);
            EndPut();
          } else if k < first && k !in done {
            WriterStepRely(View(), View(), [], k);
            PutByte(k);
          }
        case WSecond(d, w, done) =>
          var first := FirstPart(buffer.Length, w, |d|);
          if Done(done, first, |d|) {
            WriterStepRely(View(), View(), [], 0);
            EndPut();
          } else if first <= k < |d| && k !in done {
            WriterStepRely(View(), View(), [], k);
            PutByte(k);
          }
        case WStore(d, w, _) =>
          WriterStepRely(View(), View(), [], 0);
          StoreWriter(if OnePart(buffer.Length, w, |d|) then w + |d| else |d| - (buffer.Length - w));
      }
    }

    /** One step of the reader, wherever it stands. */
    method ReaderMoves(want: nat, k: nat)
      requires Valid()
      modifies this`c, this`reader, this`q, this`taken
      ensures Valid() && ReaderRely(old(View()), View())
    {
      match c {
        case RIdle =>
          ReaderStepRely(View(), View(), want, 0);
          var _ := LoadReader(want);
        case RLoadWriter(_, _) =>
          ReaderStepRely(View(), View(), 0, 0);
          var _ := LoadWriterAsReader();
        case RFirst(n, r, dst) =>
          var first := FirstPart(buffer.Length, r, n);
          if Done(dst.Keys, 0, first) {
            ReaderStepRely(View(), View(), 0, 0);
            EndGet();
          } else if k < first && k !in dst {
            ReaderStepRely(View(), View(), 0, k);
            GetByte(k);
          }
        case RSecond(n, r, dst) =>
          var first := FirstPart(buffer.Length, r, n);
          if Done(dst.Keys, first, n) {
            ReaderStepRely(View(), View(), 0, 0);
            EndGet();
          } else if first <= k < n && k !in dst {
            ReaderStepRely(View(), View(), 0, k);
            GetByte(k);
          }
        case RStore(n, r, dst) =>
          ReaderStepRely(View(), View(), 0, 0);
          var _ := StoreReader(if n <= buffer.Length - r then (if r + n == buffer.Length then 0 else r + n)
                               else n - (buffer.Length - r));
      }
    }

    /** The reader runs for any number of steps. */
    method ReaderRuns()
      requires Valid()
      modifies this`c, this`reader, this`q, this`taken
      ensures Valid() && ReaderRely(old(View()), View())
      ensures Remains(q, old(q))
    {
      var n: nat := *;
      while n > 0
        invariant Valid() && ReaderRely(old(View()), View())
      {
        var want: nat, k: nat := *, *;
        ReaderMoves(want, k);
        n := n - 1;
      }
    }

    /** The writer runs for any number of steps, writing what it likes. */
    method WriterRuns()
      requires Valid()
      modifies this`p, this`writer, this`q, this`put, buffer
      ensures Valid() && WriterRely(old(View()), View())
    {
      var n: nat := *;
      while n > 0
        invariant Valid() && WriterRely(old(View()), View())
      {
        var data: seq<Byte>, k: nat := *, *;
        if |data| < W {
          WriterMoves(data, k);
        }
        n := n - 1;
      }
    }

    // -------------------------------------------------------------- the operations

    /**
     A write is all or nothing: the whole span goes behind everything that was there, or nothing does because
     there was not room for it; meanwhile the reader takes `gone`, some of the oldest bytes, and the rest is
     still there.
     */
    method TryWrite(data: seq<Byte>) returns (ok: bool, ghost gone: seq<Byte>)
      requires Valid() && p.WIdle? && |data| < W
      modifies this, buffer
      ensures Valid() && p.WIdle?
      ensures Exchanged(old(TheBooks()), TheBooks(), if ok then data else [], gone)
      ensures !ok ==> |old(q)| + |data| > buffer.Length - 1
    {
      var w := LoadWriter(data);
      ReaderRuns();
      var r := LoadReaderAsWriter();
      var freeSpace := FreeSpace(buffer.Length, w, r);
      if freeSpace < |data| {
        assert q + [] == q && put + [] == put && old(q) + [] == old(q);
        gone := WhatWent(old(TheBooks()), TheBooks(), []);
        return false, gone;
      }
      StoreSpan(data, w, old(q));
      gone := WhatWent(old(TheBooks()), TheBooks(), data);
      return true, gone;
    }

    /** There is room for the span. */
    method StoreSpan(data: seq<Byte>, w: nat, ghost was: seq<Byte>)
      requires Valid() && p == WFirst(data, w, {}) && w < buffer.Length && Remains(q, was)
      modifies this, buffer
      ensures Valid() && p.WIdle? && put == old(put) + data && Remains(q, was + data)
    {
      ghost var q1 := q;
      CopySpan(data, w);
      RemainsTrans(q, q1, was);
      RemainsAppendAll(q, was, data);
      StoreWriter(if w + |data| < buffer.Length then w + |data| else |data| - (buffer.Length - w));
    }

    /** `memcpy` of bytes lo to hi of the span, while the reader runs. */
    method CopyIn(second: bool, lo: nat, hi: nat, data: seq<Byte>, w: nat)
      requires Valid() && w < buffer.Length && lo <= hi <= |data| && CopyingIn(p, second, data, w, lo)
      requires if second then lo == FirstPart(buffer.Length, w, |data|) else hi == FirstPart(buffer.Length, w, |data|)
      modifies this, buffer
      ensures Valid() && CopyingIn(p, second, data, w, hi) && writer == old(writer)
      ensures Remains(q, old(q)) && put == old(put)
    {
      var k := lo;
      while k < hi
        invariant lo <= k <= hi && Valid() && CopyingIn(p, second, data, w, k) && writer == old(writer)
        invariant Remains(q, old(q)) && put == old(put)
      {
        ghost var q1 := q;
        PutNext(second, k, data, w);
        RemainsTrans(q, q1, old(q));
        k := k + 1;
      }
    }

    /** One byte of such a copy. */
    method PutNext(second: bool, k: nat, data: seq<Byte>, w: nat)
      requires Valid() && w < buffer.Length && k < |data| && CopyingIn(p, second, data, w, k)
      requires if second then k >= FirstPart(buffer.Length, w, |data|) else k < FirstPart(buffer.Length, w, |data|)
      modifies this, buffer
      ensures Valid() && CopyingIn(p, second, data, w, k + 1) && writer == old(writer)
      ensures Remains(q, old(q)) && put == old(put)
    {
      PutByte(k);
      CopyingInNext(old(p), second, data, w, k);
      ReaderRuns();
    }

    /** The copies of `try_write`: in one part, or up to the end of the ring and on from its start. */
    method CopySpan(data: seq<Byte>, w: nat)
      requires Valid() && p == WFirst(data, w, {}) && w < buffer.Length
      modifies this, buffer
      ensures Valid() && p.WStore? && p.data == data && p.w == w && Remains(q, old(q)) && put == old(put)
    {
      if w + |data| < buffer.Length {
        CopyPart(false, 0, |data|, data, w);
      } else {
        var firstPart := buffer.Length - w;
        ghost var q0 := q;
        CopyPart(false, 0, firstPart, data, w);
        ghost var q1 := q;
        CopyPart(true, firstPart, |data|, data, w);
        RemainsTrans(q, q1, q0);
      }
    }

    /** One `memcpy`, with the reader running before, during and after it. */
    method CopyPart(second: bool, lo: nat, hi: nat, data: seq<Byte>, w: nat)
      requires Valid() && w < buffer.Length && lo <= hi <= |data| && CopyingIn(p, second, data, w, lo)
      requires if second then lo == FirstPart(buffer.Length, w, |data|) && hi == |data| else hi == FirstPart(buffer.Length, w, |data|)
      modifies this, buffer
      ensures Valid() && writer == old(writer) && Remains(q, old(q)) && put == old(put)
      ensures if second || OnePart(buffer.Length, w, |data|) then p.WStore? && p.data == data && p.w == w
              else CopyingIn(p, true, data, w, hi)
    {
      ghost var was := q;
      ReaderRuns();
      ghost var q1 := q;
      CopyIn(second, lo, hi, data, w);
      RemainsTrans(q, q1, was);
      EndPut();
      ghost var q2 := q;
      ReaderRuns();
      RemainsTrans(q, q2, was);
    }

    /**
     A read takes the oldest bytes out and returns them: all there were, or as many as were asked for;
     meanwhile the writer puts `came` behind, which is still there.
     */
    method Read(want: nat) returns (bytes: seq<Byte>, ghost came: seq<Byte>)
      requires Valid() && c.RIdle?
      modifies this, buffer
      ensures Valid() && c.RIdle?
      ensures |bytes| <= want && (|bytes| == want || |bytes| >= |old(q)|)
      ensures Exchanged(old(TheBooks()), TheBooks(), came, bytes)
    {
      var r := LoadReader(want);
      WriterRuns();
      var w := LoadWriterAsReader();
      var avail := Available(buffer.Length, w, r);
      if avail == 0 {
        assert taken + [] == taken && [] + q == q;
        came := WhatCame(old(TheBooks()), TheBooks(), []);
        return [], came;
      }
      bytes := TakeBytes(if avail <= want then avail else want, r, old(q));
      came := WhatCame(old(TheBooks()), TheBooks(), bytes);
    }

    /** There are at least n bytes. */
    method TakeBytes(n: nat, r: nat, ghost was: seq<Byte>) returns (bytes: seq<Byte>)
      requires Valid() && c == RFirst(n, r, map[]) && r < buffer.Length && was <= q
      modifies this, buffer
      ensures Valid() && c.RIdle? && |bytes| == n && taken == old(taken) + bytes && was <= bytes + q
    {
      CopyBytes(n, r);
      var spaceToEnd := buffer.Length - r;
      if n <= spaceToEnd {
        var newReader := r + n;
        if newReader == buffer.Length {
          newReader := 0;
        }
        bytes := StoreReader(newReader);
      } else {
        bytes := StoreReader(n - spaceToEnd);
      }
    }

    /** `memcpy` of bytes lo to hi of those to return, while the writer runs. */
    method CopyOut(second: bool, lo: nat, hi: nat, n: nat, r: nat)
      requires Valid() && r < buffer.Length && lo <= hi <= n && CopyingOut(c, second, n, r, lo)
      requires if second then lo == FirstPart(buffer.Length, r, n) else hi == FirstPart(buffer.Length, r, n)
      modifies this, buffer
      ensures Valid() && CopyingOut(c, second, n, r, hi)
      ensures old(q) <= q && taken == old(taken)
    {
      var k := lo;
      while k < hi
        invariant lo <= k <= hi && Valid() && CopyingOut(c, second, n, r, k)
        invariant old(q) <= q && taken == old(taken)
      {
        GetByte(k);
        WriterRuns();
        k := k + 1;
      }
    }

    /** The copies of `read`: in one part, or up to the end of the ring and on from its start. */
    method CopyBytes(n: nat, r: nat)
      requires Valid() && c == RFirst(n, r, map[]) && r < buffer.Length
      modifies this, buffer
      ensures Valid() && c.RStore? && c.n == n && c.r == r && old(q) <= q && taken == old(taken)
    {
      var spaceToEnd := buffer.Length - r;
      if n <= spaceToEnd {
        FetchPart(false, 0, n, n, r);
      } else {
        FetchPart(false, 0, spaceToEnd, n, r);
        FetchPart(true, spaceToEnd, n, n, r);
      }
    }

    /** One `memcpy`, with the writer running before, during and after it. */
    method FetchPart(second: bool, lo: nat, hi: nat, n: nat, r: nat)
      requires Valid() && r < buffer.Length && lo <= hi <= n && CopyingOut(c, second, n, r, lo)
      requires if second then lo == FirstPart(buffer.Length, r, n) && hi == n else hi == FirstPart(buffer.Length, r, n)
      modifies this, buffer
      ensures Valid() && old(q) <= q && taken == old(taken)
      ensures if second || n <= buffer.Length - r then c.RStore? && c.n == n && c.r == r
              else CopyingOut(c, true, n, r, hi)
    {
      WriterRuns();
      CopyOut(second, lo, hi, n, r);
      EndGet();
      WriterRuns();
    }
  }
}
