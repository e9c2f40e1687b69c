/**
 `SPSCBuffer` of src/spsc_buffer.cpp as a machine of micro-steps: a byte stream through a ring of
 `size` bytes, where a span that crosses the end of the ring is copied in two parts.

 Each load or store of an index is one step, and so is each byte of a `memcpy`; the bytes of one
 `memcpy` are copied in any order. `q` is the stream's unread bytes and never decides a branch.
 */
module ByteRing {
  import opened Circular
  import opened Words

  newtype Byte = x: int | 0 <= x < 256

  /** Where the writer stands inside `try_write`. */
  datatype Writer =
    | WIdle
    | WLoadReader(data: seq<Byte>, w: nat)                // about to load reader_
    | WFirst(data: seq<Byte>, w: nat, done: set<nat>)     // copying up to the end of the ring
    | WSecond(data: seq<Byte>, w: nat, done: set<nat>)    // copying the rest to the start of the ring
    | WStore(data: seq<Byte>, w: nat, done: set<nat>)     // about to store writer_

  /** Where the reader stands inside `read`. */
  datatype Reader =
    | RIdle
    | RLoadWriter(want: nat, r: nat)                      // about to load writer_
    | RFirst(n: nat, r: nat, dst: map<nat, Byte>)
    | RSecond(n: nat, r: nat, dst: map<nat, Byte>)
    | RStore(n: nat, r: nat, dst: map<nat, Byte>)         // about to store reader_

  datatype State = State(
    size: nat,           // bufferSize_
    buf: seq<Byte>,
    reader: nat,
    writer: nat,
    p: Writer,
    c: Reader,
    q: seq<Byte>)

  /** Who moves next; k picks the byte to copy next, and the other arguments start a call. */
  datatype Action = MoveWriter(data: seq<Byte>, k: nat) | MoveReader(want: nat, k: nat)

  datatype Event =
    | Tau
    | Wrote(data: seq<Byte>)     // try_write takes effect and returns true
    | NoRoom(data: seq<Byte>)    // try_write returns false
    | Got(bytes: seq<Byte>)      // read takes effect and returns |bytes|
    | Nothing                    // read returns 0 because the stream is empty

  /** `available`: how many bytes lie between the two indices. */
  function Available(size: nat, writer: nat, reader: nat): nat
    requires writer < size && reader < size
  {
    if reader > writer then (size - reader) + writer else writer - reader
  }

  function FreeSpace(size: nat, writer: nat, reader: nat): nat
    requires writer < size <= W && reader < size
  {
    Sub64(size - 1, Available(size, writer, reader))
  }

  /** How much of n bytes starting at index i fits before the end of the ring. */
  function FirstPart(size: nat, i: nat, n: nat): nat
    requires i < size
  {
    if n <= size - i then n else size - i
  }

  predicate Done(done: set<nat>, lo: nat, hi: nat) {
    forall k: nat | lo <= k < hi :: k in done
  }

  /** The two indices are inside the ring and sums of an index and a length cannot wrap. */
  predicate Shaped(s: State) {
    2 <= s.size <= TopBit && |s.buf| == s.size && s.reader < s.size && s.writer < s.size
  }

  /** A copied byte lies inside the ring and inside the caller's span. */
  predicate Safe(s: State, a: Action) {
    && Shaped(s)
    && match a
       case MoveWriter(data, k) =>
         (match s.p
          case WIdle => |data| < W
          case WLoadReader(_, w) => w < s.size
          case WFirst(d, w, _) => w < s.size && w + FirstPart(s.size, w, |d|) <= s.size
          case WSecond(d, w, _) => w < s.size && |d| - FirstPart(s.size, w, |d|) <= s.size
          case WStore(d, w, _) => w < s.size && |d| - FirstPart(s.size, w, |d|) < s.size)
       case MoveReader(_, k) =>
         (match s.c
          case RIdle => true
          case RLoadWriter(_, r) => r < s.size
          case RFirst(n, r, _) => r < s.size && r + FirstPart(s.size, r, n) <= s.size
          case RSecond(n, r, _) => r < s.size && n - FirstPart(s.size, r, n) <= s.size
          case RStore(n, r, dst) => r < s.size && n - FirstPart(s.size, r, n) < s.size && forall k | 0 <= k < n :: k in dst)
  }

  /** `writer + data.size_bytes() < bufferSize_`: the span does not reach the end of the ring. */
  predicate OnePart(size: nat, w: nat, n: nat) {
    w + n < size
  }

  function WriterStep(s: State, data: seq<Byte>, k: nat): State
    requires Safe(s, MoveWriter(data, k))
  {
    match s.p
    case WIdle => s.(p := WLoadReader(data, s.writer))
    case WLoadReader(d, w) =>
      if FreeSpace(s.size, w, s.reader) < |d| then s.(p := WIdle) else s.(p := WFirst(d, w, {}))
    case WFirst(d, w, done) =>
      var first := FirstPart(s.size, w, |d|);
      if Done(done, 0, first) then s.(p := if OnePart(s.size, w, |d|) then WStore(d, w, done) else WSecond(d, w, done))
      else if k < first then s.(buf := s.buf[w + k := d[k]], p := WFirst(d, w, done + {k}))
      else s
    case WSecond(d, w, done) =>
      var first := FirstPart(s.size, w, |d|);
      if Done(done, first, |d|) then s.(p := WStore(d, w, done))
      else if first <= k < |d| then s.(buf := s.buf[k - first := d[k]], p := WSecond(d, w, done + {k}))
      else s
    case WStore(d, w, _) =>
      s.(writer := if OnePart(s.size, w, |d|) then w + |d| else |d| - (s.size - w),
         p := WIdle, q := s.q + d)
  }

  function ReaderStep(s: State, want: nat, k: nat): State
    requires Safe(s, MoveReader(want, k))
  {
    match s.c
    case RIdle => s.(c := RLoadWriter(want, s.reader))
    case RLoadWriter(wanted, r) =>
      var avail := Available(s.size, s.writer, r);
      if avail == 0 then s.(c := RIdle)
      else s.(c := RFirst(if avail <= wanted then avail else wanted, r, map[]))
    case RFirst(n, r, dst) =>
      var first := FirstPart(s.size, r, n);
      if Done(dst.Keys, 0, first) then s.(c := if n <= s.size - r then RStore(n, r, dst) else RSecond(n, r, dst))
      else if k < first then s.(c := RFirst(n, r, dst[k := s.buf[r + k]]))
      else s
    case RSecond(n, r, dst) =>
      var first := FirstPart(s.size, r, n);
      if Done(dst.Keys, first, n) then s.(c := RStore(n, r, dst))
      else if first <= k < n then s.(c := RSecond(n, r, dst[k := s.buf[k - first]]))
      else s
    case RStore(n, r, dst) =>
      s.(reader := if n <= s.size - r then (if r + n == s.size then 0 else r + n) else n - (s.size - r),
         c := RIdle, q := if n <= |s.q| then s.q[n..] else [])
  }

  function Step(s: State, a: Action): State
    requires Safe(s, a)
  {
    match a
    case MoveWriter(data, k) => WriterStep(s, data, k)
    case MoveReader(want, k) => ReaderStep(s, want, k)
  }

  function Returned(n: nat, dst: map<nat, Byte>): (b: seq<Byte>)
    requires forall k | 0 <= k < n :: k in dst
  {
    seq(n, k requires 0 <= k < n => dst[k])
  }

  function EventOf(s: State, a: Action): Event
    requires Safe(s, a)
  {
    match a
    case MoveWriter(_, _) =>
      (match s.p
       case WLoadReader(d, w) =>
            if FreeSpace(s.size, w, s.reader) < |d| then NoRoom(d) else Tau
       case WStore(d, _, _) => Wrote(d)
       case _ => Tau)
    case MoveReader(_, _) =>
      (match s.c
       case RLoadWriter(_, r) => if Available(s.size, s.writer, r) == 0 then Nothing else Tau
       case RStore(n, _, dst) => Got(Returned(n, dst))
       case _ => Tau)
  }

  predicate Init(s: State) {
    Shaped(s) && s.reader == 0 && s.writer == 0 && s.p == WIdle && s.c == RIdle && s.q == []
  }

  // ---------------------------------------------------------------- the invariant

  /** The q bytes from index `head` on, round the ring, are q. */
  predicate Window(buf: seq<Byte>, head: nat, q: seq<Byte>) {
    && head < |buf| && |q| < |buf|
    && forall i | 0 <= i < |buf| :: Dist(|buf|, head, i) < |q| ==> buf[i] == q[Dist(|buf|, head, i)]
  }

  /** The bytes copied so far of a span written from index w on are in place. */
  predicate Copied(buf: seq<Byte>, w: nat, data: seq<Byte>, done: set<nat>) {
    w < |buf| && forall k: nat | k in done && k < |data| && k < |buf| :: buf[At(|buf|, w, k)] == data[k]
  }

  /** The bytes fetched so far are the stream's. */
  predicate Fetched(dst: map<nat, Byte>, n: nat, q: seq<Byte>) {
    forall k: nat | k in dst && k < n && k < |q| :: dst[k] == q[k]
  }

  predicate WriterInv(s: State)
    requires Shaped(s)
  {
    match s.p
    case WIdle => true
    case WLoadReader(d, w) => w == s.writer && |d| < W
    case WFirst(d, w, done) => w == s.writer && |s.q| + |d| < s.size && Copied(s.buf, w, d, done)
    case WSecond(d, w, done) =>
      && w == s.writer && |s.q| + |d| < s.size && Copied(s.buf, w, d, done)
      && !OnePart(s.size, w, |d|) && Done(done, 0, FirstPart(s.size, w, |d|))
    case WStore(d, w, done) =>
      w == s.writer && |s.q| + |d| < s.size && Copied(s.buf, w, d, done) && Done(done, 0, |d|)
  }

  predicate ReaderInv(s: State)
    requires Shaped(s)
  {
    match s.c
    case RIdle => true
    case RLoadWriter(_, r) => r == s.reader
    case RFirst(n, r, dst) => r == s.reader && n <= |s.q| && Fetched(dst, n, s.q)
    case RSecond(n, r, dst) =>
      && r == s.reader && n <= |s.q| && Fetched(dst, n, s.q)
      && n > s.size - r && Done(dst.Keys, 0, FirstPart(s.size, r, n))
    case RStore(n, r, dst) =>
      r == s.reader && n <= |s.q| && Fetched(dst, n, s.q) && Done(dst.Keys, 0, n)
  }

  /** The inductive invariant. (Quantified so that the verifier looks inside only where `InvParts` is mentioned.) */
  ghost predicate Inv(s: State) {
    Shaped(s) && forall t | t == s && Shaped(t) :: InvParts(t)
  }

  predicate InvParts(s: State)
    requires Shaped(s)
  {
    && |s.q| == Available(s.size, s.writer, s.reader)
    && Window(s.buf, s.reader, s.q)
    && WriterInv(s) && ReaderInv(s)
  }

  /** `bufferSize_ - 1 - available` never underflows, and indices never leave the ring. */
  lemma FreeSpaceExact(s: State)
    requires Inv(s)
    ensures s.size <= W && |s.q| <= s.size - 1
    ensures FreeSpace(s.size, s.writer, s.reader) == s.size - 1 - |s.q|
  {
    assert InvParts(s);
  }

  lemma InvSafe(s: State, a: Action)
    requires Inv(s) && (a.MoveWriter? ==> |a.data| < W)
    ensures Safe(s, a)
  {
    assert InvParts(s);
  }

  /** The bytes the writer is overwriting are never bytes that are still unread, whatever snapshot it took. */
  lemma CopiesDisjoint(s: State, k: nat, j: nat)
    requires Inv(s) && (s.p.WFirst? || s.p.WSecond?) && k < |s.p.data| && j < |s.q|
    ensures k < s.size && j < s.size
    ensures At(s.size, s.writer, k) != At(s.size, s.reader, j)
  {
    assert InvParts(s);
  }

  lemma CopyByte(buf: seq<Byte>, reader: nat, writer: nat, q: seq<Byte>, d: seq<Byte>, done: set<nat>, k: nat)
    requires reader < |buf| && writer < |buf| && |q| == Dist(|buf|, reader, writer)
    requires Window(buf, reader, q) && Copied(buf, writer, d, done)
    requires k < |d| && |q| + |d| < |buf|
    ensures var b := buf[At(|buf|, writer, k) := d[k]];
            Window(b, reader, q) && Copied(b, writer, d, done + {k})
  {
  }

  lemma AppendSpan(buf: seq<Byte>, reader: nat, writer: nat, q: seq<Byte>, d: seq<Byte>, done: set<nat>)
    requires reader < |buf| && writer < |buf| && |q| == Dist(|buf|, reader, writer)
    requires Window(buf, reader, q) && Copied(buf, writer, d, done) && Done(done, 0, |d|)
    requires |q| + |d| < |buf|
    ensures Window(buf, reader, q + d)
  {
    forall i | 0 <= i < |buf| && |q| <= Dist(|buf|, reader, i) < |q| + |d|
      ensures buf[i] == (q + d)[Dist(|buf|, reader, i)]
    {
      var k := Dist(|buf|, reader, i) - |q|;
      assert i == At(|buf|, writer, k);
      assert k in done;
    }
  }

  lemma DropSpan(buf: seq<Byte>, reader: nat, q: seq<Byte>, n: nat)
    requires Window(buf, reader, q) && n <= |q|
    ensures Window(buf, At(|buf|, reader, n), q[n..])
  {
    var head := At(|buf|, reader, n);
    forall i | 0 <= i < |buf| && Dist(|buf|, head, i) < |q| - n
      ensures buf[i] == q[n..][Dist(|buf|, head, i)]
    {
      assert Dist(|buf|, reader, i) == n + Dist(|buf|, head, i);
    }
  }

  lemma WriterCopies(s: State, t: State, d: seq<Byte>, done: set<nat>, k: nat)
    requires Inv(s) && (s.p == WFirst(d, s.writer, done) || s.p == WSecond(d, s.writer, done)) && k < |d|
    requires k < s.size && t.buf == s.buf[At(s.size, s.writer, k) := d[k]]
    requires t == s.(buf := t.buf, p := if s.p.WFirst? then WFirst(d, s.writer, done + {k}) else WSecond(d, s.writer, done + {k}))
    ensures Inv(t)
  {
    assert InvParts(s);
    CopyByte(s.buf, s.reader, s.writer, s.q, d, done, k);
  }

  lemma WriterStores(s: State, t: State, d: seq<Byte>, w: nat, done: set<nat>)
    requires Inv(s) && s.p == WStore(d, w, done)
    requires t == s.(writer := if OnePart(s.size, w, |d|) then w + |d| else |d| - (s.size - w), p := WIdle, q := s.q + d)
    ensures Inv(t)
  {
    assert InvParts(s);
    AppendSpan(s.buf, s.reader, s.writer, s.q, d, done);
  }

  lemma WriterMovesOn(s: State, t: State, p: Writer)
    requires Inv(s) && t == s.(p := p) && WriterInv(t)
    ensures Inv(t)
  {
    assert InvParts(s);
  }

  lemma WriterKeeps(s: State, data: seq<Byte>, k: nat)
    requires Inv(s) && Safe(s, MoveWriter(data, k))
    ensures Inv(WriterStep(s, data, k))
  {
    assert InvParts(s);
    var t := WriterStep(s, data, k);
    match s.p
    case WIdle => WriterMovesOn(s, t, t.p);
    case WLoadReader(d, w) =>
      FreeSpaceExact(s);
      WriterMovesOn(s, t, t.p);
    case WFirst(d, w, done) =>
      var first := FirstPart(s.size, w, |d|);
      if Done(done, 0, first) {
        WriterMovesOn(s, t, t.p);
      } else if k < first {
        WriterCopies(s, t, d, done, k);
      }
    case WSecond(d, w, done) =>
      var first := FirstPart(s.size, w, |d|);
      if Done(done, first, |d|) {
        WriterMovesOn(s, t, t.p);
      } else if first <= k < |d| {
        WriterCopies(s, t, d, done, k);
      }
    case WStore(d, w, done) =>
      WriterStores(s, t, d, w, done);
  }

  /** A byte fetched from place k of the unread bytes is the stream's k-th unread byte. */
  lemma FetchByte(s: State, k: nat)
    requires Inv(s) && k < |s.q|
    ensures k < s.size && s.buf[At(s.size, s.reader, k)] == s.q[k]
  {
    assert InvParts(s);
  }

  lemma ReaderMovesOn(s: State, t: State, c: Reader)
    requires Inv(s) && t == s.(c := c) && ReaderInv(t)
    ensures Inv(t)
  {
    assert InvParts(s);
  }

  lemma ReaderStores(s: State, t: State, n: nat, r: nat, dst: map<nat, Byte>)
    requires Inv(s) && s.c == RStore(n, r, dst) && n <= |s.q|
    requires t == s.(reader := if n <= s.size - r then (if r + n == s.size then 0 else r + n) else n - (s.size - r),
                     c := RIdle, q := s.q[n..])
    ensures Inv(t)
  {
    assert InvParts(s);
    NewReader(s.size, s.writer, r, n);
    DropSpan(s.buf, s.reader, s.q, n);
  }

  /** The index stored in `reader_` is n places on, and leaves n bytes fewer. */
  lemma NewReader(size: nat, writer: nat, r: nat, n: nat)
    requires writer < size && r < size && n <= Available(size, writer, r)
    ensures var back := if n <= size - r then (if r + n == size then 0 else r + n) else n - (size - r);
            0 <= back < size && back == At(size, r, n) && Available(size, writer, back) == Available(size, writer, r) - n
  {
  }

  /** The next byte is fetched. */
  lemma ReaderFetches(s: State, t: State, n: nat, r: nat, dst: map<nat, Byte>, k: nat, dst': map<nat, Byte>)
    requires Inv(s) && (s.c == RFirst(n, r, dst) || s.c == RSecond(n, r, dst)) && k < n && k < s.size
    requires dst' == dst[k := s.buf[At(s.size, s.reader, k)]]
    requires t == s.(c := if s.c.RFirst? then RFirst(n, r, dst') else RSecond(n, r, dst'))
    ensures Inv(t)
  {
    assert InvParts(s);
    FetchByte(s, k);
    ReaderMovesOn(s, t, t.c);
  }

  lemma ReaderCopies(s: State, k: nat)
    requires Inv(s) && Safe(s, MoveReader(0, k)) && (s.c.RFirst? || s.c.RSecond?)
    ensures Inv(ReaderStep(s, 0, k))
  {
    assert InvParts(s);
    var t, first := ReaderStep(s, 0, k), FirstPart(s.size, s.c.r, s.c.n);
    if if s.c.RFirst? then Done(s.c.dst.Keys, 0, first) else Done(s.c.dst.Keys, first, s.c.n) {
      ReaderMovesOn(s, t, t.c);
    } else if (if s.c.RFirst? then k < first else first <= k < s.c.n) {
      FetchByte(s, k);
      ReaderFetches(s, t, s.c.n, s.c.r, s.c.dst, k, t.c.dst);
    }
  }

  lemma ReaderKeeps(s: State, want: nat, k: nat)
    requires Inv(s) && Safe(s, MoveReader(want, k))
    ensures Inv(ReaderStep(s, want, k))
  {
    assert InvParts(s);
    var t := ReaderStep(s, want, k);
    match s.c
    case RIdle => ReaderMovesOn(s, t, t.c);
    case RLoadWriter(_, _) => ReaderMovesOn(s, t, t.c);
    case RStore(n, r, dst) => ReaderStores(s, t, n, r, dst);
    case _ => ReaderCopies(s, k);
  }

  /** What each event means for the stream: writes are all or nothing, reads return its oldest bytes. */
  ghost predicate Allowed(size: nat, q: seq<Byte>, e: Event, q': seq<Byte>) {
    match e
    case Tau => q' == q
    case Wrote(d) => |q| + |d| <= size - 1 && q' == q + d
    case NoRoom(d) => |q| + |d| > size - 1 && q' == q
    case Got(b) => b <= q && q' == q[|b|..]
    case Nothing => q == [] && q' == q
  }

  lemma StepRefines(s: State, a: Action)
    requires Inv(s) && Safe(s, a)
    ensures Inv(Step(s, a)) && Step(s, a).size == s.size
    ensures Allowed(s.size, s.q, EventOf(s, a), Step(s, a).q)
  {
    assert InvParts(s);
    FreeSpaceExact(s);
    match a
    case MoveWriter(data, k) => WriterKeeps(s, data, k);
    case MoveReader(want, k) =>
      ReaderKeeps(s, want, k);
      if s.c.RStore? {
        var b := Returned(s.c.n, s.c.dst);
        assert b == s.q[..s.c.n];
      }
  }

  // ---------------------------------------------------------------- whole runs

  function Exec(s: State, schedule: seq<Action>): (State, seq<Event>) {
    if schedule == [] then (s, []) else Extend(Exec(s, schedule[..|schedule| - 1]), schedule[|schedule| - 1])
  }

  function Extend(r: (State, seq<Event>), a: Action): (State, seq<Event>) {
    if Safe(r.0, a) then (Step(r.0, a), r.1 + [EventOf(r.0, a)]) else r
  }

  /** All bytes accepted, and all bytes returned, in order. */
  function Written(trace: seq<Event>): seq<Byte> {
    if trace == [] then []
    else
      var e := trace[|trace| - 1];
      Written(trace[..|trace| - 1]) + (if e.Wrote? then e.data else [])
  }

  function Delivered(trace: seq<Event>): seq<Byte> {
    if trace == [] then []
    else
      var e := trace[|trace| - 1];
      Delivered(trace[..|trace| - 1]) + (if e.Got? then e.bytes else [])
  }

  lemma ExtendTrace(size: nat, trace: seq<Event>, e: Event, q: seq<Byte>, q': seq<Byte>)
    requires Written(trace) == Delivered(trace) + q && Allowed(size, q, e, q')
    ensures Written(trace + [e]) == Delivered(trace + [e]) + q'
  {
    assert (trace + [e])[..|trace + [e]| - 1] == trace;
    if e.Got? {
      assert q == e.bytes + q';
    }
  }

  lemma ExtendStream(r: (State, seq<Event>), a: Action)
    requires Inv(r.0) && Written(r.1) == Delivered(r.1) + r.0.q
    ensures var t := Extend(r, a); Inv(t.0) && Written(t.1) == Delivered(t.1) + t.0.q && t.0.size == r.0.size
  {
    if Safe(r.0, a) {
      StepRefines(r.0, a);
      ExtendTrace(r.0.size, r.1, EventOf(r.0, a), r.0.q, Step(r.0, a).q);
    }
  }

  /**
   Over every interleaving, across wraps, exact landings on the end of the ring and split copies: the
   bytes returned are a prefix of the bytes accepted, and what is in between is `available` bytes long
   and at most size - 1.
   */
  lemma {:induction false} RunIsStream(s: State, schedule: seq<Action>)
    requires Init(s)
    ensures var (end, trace) := Exec(s, schedule);
            && Inv(end) && end.size == s.size
            && Written(trace) == Delivered(trace) + end.q
            && |Written(trace)| - |Delivered(trace)| == Available(end.size, end.writer, end.reader) <= s.size - 1
  {
    if schedule == [] {
    } else {
      RunIsStream(s, schedule[..|schedule| - 1]);
      ExtendStream(Exec(s, schedule[..|schedule| - 1]), schedule[|schedule| - 1]);
    }
  }

  /** No schedule is ever halted by an unsafe step, whatever spans the callers pass. */
  lemma RunNeverUnsafe(s: State, schedule: seq<Action>, a: Action)
    requires Init(s) && (a.MoveWriter? ==> |a.data| < W)
    ensures Safe(Exec(s, schedule).0, a)
  {
    RunIsStream(s, schedule);
    InvSafe(Exec(s, schedule).0, a);
  }

  /** In every run, at every point of the writer's copies, the bytes of its span go to places where no unread byte is. */
  lemma RunCopiesDisjoint(s: State, schedule: seq<Action>, k: nat, j: nat)
    requires Init(s)
    requires var end := Exec(s, schedule).0;
             (end.p.WFirst? || end.p.WSecond?) && k < |end.p.data| && j < |end.q|
    ensures var end := Exec(s, schedule).0;
            && k < end.size && j < end.size && end.writer < end.size && end.reader < end.size
            && At(end.size, end.writer, k) != At(end.size, end.reader, j)
            && |end.buf| == end.size && end.buf[At(end.size, end.reader, j)] == end.q[j]
  {
    RunIsStream(s, schedule);
    CopiesDisjoint(Exec(s, schedule).0, k, j);
    FetchByte(Exec(s, schedule).0, j);
  }

  /** At its load of `writer_`, a `read` decides to take all that is there or all that was asked for. */
  lemma ReadTakesAllItCan(s: State, k: nat)
    requires Inv(s) && s.c.RLoadWriter? && Safe(s, MoveReader(0, k)) && s.q != []
    ensures ReaderStep(s, 0, k).c.RFirst?
    ensures ReaderStep(s, 0, k).c.n == if |s.q| <= s.c.want then |s.q| else s.c.want
  {
    assert InvParts(s);
  }
}
