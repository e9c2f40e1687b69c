/** No consumer of the fan-out queue ever returns a torn or wrong message, on total store order. */
module SpmcProof {
  import opened Words
  import opened SpmcQueue

  // ---------------------------------------------------------------- rounds

  /** How many messages have been completely stored in slot j: its version is twice that, plus one during a write. */
  function Rounds(n: nat, j: nat, at: Pos): nat
    requires n >= 1
  {
    at.i / n + (if j < at.i % n || (j == at.i % n && at.phase.Closed?) then 1 else 0)
  }

  predicate Writing(n: nat, j: nat, at: Pos)
    requires n >= 1
  {
    j == at.i % n && at.phase.Open?
  }

  /** Message r has been closed in its slot. */
  predicate Published(at: Pos, r: nat) {
    r < at.i || (r == at.i && at.phase.Closed?)
  }

  /** Message r has begun to be written. */
  predicate Begun(at: Pos, r: nat) {
    r < at.i || (r == at.i && !at.phase.Start?)
  }

  lemma DivLess(n: nat, a: nat, b: nat)
    requires n >= 1
    ensures a < b <==> (a / n < b / n || (a / n == b / n && a % n < b % n))
  {
    var x, y := a / n, b / n;
    assert a == x * n + a % n && b == y * n + b % n;
    if x < y {
      MulAtLeast(x + 1, y, n);
    } else if y < x {
      MulAtLeast(y + 1, x, n);
    }
  }

  lemma MulAtLeast(a: nat, b: nat, n: nat)
    requires a <= b
    ensures a * n <= b * n
  {
  }

  lemma DivNext(n: nat, i: nat)
    requires n >= 1
    ensures if i % n + 1 == n then (i + 1) / n == i / n + 1 && (i + 1) % n == 0
            else (i + 1) / n == i / n && (i + 1) % n == i % n + 1
  {
    var q, r := i / n, i % n;
    if r + 1 == n {
      assert i + 1 == (q + 1) * n + 0;
      DivModUnique(i + 1, n, q + 1, 0);
    } else {
      assert i + 1 == q * n + (r + 1);
      DivModUnique(i + 1, n, q, r + 1);
    }
  }

  /** Slot r mod n has seen r / n + 1 rounds exactly when message r is published. */
  lemma RoundsPublished(n: nat, at: Pos, r: nat)
    requires n >= 1
    ensures Rounds(n, r % n, at) >= r / n + 1 <==> Published(at, r)
  {
    DivLess(n, r, at.i);
    DivLess(n, at.i, r);
  }

  /** One lap later. */
  lemma DivLap(n: nat, r: nat)
    requires n >= 1
    ensures (r + n) / n == r / n + 1 && (r + n) % n == r % n
  {
    assert r + n == (r / n + 1) * n + r % n;
    DivModUnique(r + n, n, r / n + 1, r % n);
  }

  // ---------------------------------------------------------------- memory

  /** A slot's version counts its rounds, and between writes its words are the last round's message. */
  ghost predicate SlotOk<T>(n: nat, m: nat, mem: Memory<T>, msgs: seq<seq<T>>, at: Pos, j: nat)
    requires n >= 1 && j < |mem.versions| && j < |mem.data|
  {
    && |mem.data[j]| == m
    && mem.versions[j] == 2 * Rounds(n, j, at) + (if Writing(n, j, at) then 1 else 0)
    && (if Writing(n, j, at) then
          forall k: nat | k in at.phase.done && k < m :: at.i < |msgs| && k < |msgs[at.i]| && mem.data[j][k] == msgs[at.i][k]
        else
          Rounds(n, j, at) > 0 ==>
            var r := n * (Rounds(n, j, at) - 1) + j; r < |msgs| && mem.data[j] == msgs[r])
  }

  ghost predicate MemOk<T>(n: nat, m: nat, mem: Memory<T>, msgs: seq<seq<T>>, at: Pos)
    requires n >= 1
  {
    && |mem.versions| == n && |mem.data| == n && mem.writer == at.i
    && forall j | 0 <= j < n :: SlotOk(n, m, mem, msgs, at, j)
  }

  lemma SlotIs(n: nat, i: nat)
    requires n >= 1
    ensures n * (i / n) + i % n == i
  {
  }

  /** One store of `push`, reaching memory, keeps what memory means. */
  lemma StoreKeepsSlot<T>(n: nat, m: nat, mem: Memory<T>, msgs: seq<seq<T>>, at: Pos, st: Store<T>, j: nat)
    requires n >= 1 && MemOk(n, m, mem, msgs, at) && SpmcQueue.Next(n, m, msgs, at, st) && j < n
    ensures InMemory(mem, st)
    ensures var t := Apply(mem, st);
            |t.versions| == n && |t.data| == n && SlotOk(n, m, t, msgs, Advance(at, st), j)
  {
    assert SlotOk(n, m, mem, msgs, at, j);
    assert SlotOk(n, m, mem, msgs, at, at.i % n);
    SlotIs(n, at.i);
    match st
    case Writer(w) => DivNext(n, at.i);
    case Version(slot, v) =>
      if at.phase.Open? && j == slot {
        assert mem.data[j] == msgs[at.i];
      }
    case Data(slot, k, x) =>
  }

  lemma StoreKeeps<T>(n: nat, m: nat, mem: Memory<T>, msgs: seq<seq<T>>, at: Pos, st: Store<T>)
    requires n >= 1 && MemOk(n, m, mem, msgs, at) && SpmcQueue.Next(n, m, msgs, at, st)
    ensures InMemory(mem, st) && MemOk(n, m, Apply(mem, st), msgs, Advance(at, st))
  {
    StoreKeepsSlot(n, m, mem, msgs, at, st, 0);
    forall j | 0 <= j < n
      ensures |Apply(mem, st).versions| == n && |Apply(mem, st).data| == n
      ensures SlotOk(n, m, Apply(mem, st), msgs, Advance(at, st), j)
    {
      StoreKeepsSlot(n, m, mem, msgs, at, st, j);
    }
    if st.Version? || st.Data? {
      assert Advance(at, st).i == at.i;
    }
  }

  /** A version equal to the expected one means the slot holds exactly the expected message. */
  lemma VersionIdentifies<T>(n: nat, m: nat, mem: Memory<T>, msgs: seq<seq<T>>, at: Pos, r: nat)
    requires n >= 1 && MemOk(n, m, mem, msgs, at)
    ensures r % n < |mem.versions| && r % n < |mem.data|
    ensures mem.versions[r % n] == 2 * (r / n + 1) ==> r < |msgs| && mem.data[r % n] == msgs[r]
    ensures mem.versions[r % n] < 2 * (r / n + 1) <==> !Published(at, r)
    ensures mem.versions[r % n] > 2 * (r / n + 1) <==> Begun(at, r + n)
  {
    assert SlotOk(n, m, mem, msgs, at, r % n);
    SlotIs(n, r);
    RoundsPublished(n, at, r);
    DivLap(n, r);
    RoundsPublished(n, at, r + n);
    DivLess(n, r + n, at.i);
    if Writing(n, r % n, at) {
      SlotIs(n, at.i);
    }
  }

  // ---------------------------------------------------------------- the store buffer

  function ApplyAll<T>(mem: Memory<T>, buffer: seq<Store<T>>): Memory<T>
    decreases |buffer|
  {
    if buffer == [] then mem
    else
      var before := ApplyAll(mem, buffer[..|buffer| - 1]);
      var last := buffer[|buffer| - 1];
      if InMemory(before, last) then Apply(before, last) else before
  }

  lemma {:induction false} PathSnoc<T>(n: nat, m: nat, msgs: seq<seq<T>>, at: Pos, buffer: seq<Store<T>>, st: Store<T>)
    requires n >= 1
    ensures End(at, buffer + [st]) == Advance(End(at, buffer), st)
    ensures Path(n, m, msgs, at, buffer + [st]) <==>
              Path(n, m, msgs, at, buffer) && SpmcQueue.Next(n, m, msgs, End(at, buffer), st)
    decreases |buffer|
  {
    if buffer == [] {
      assert [st][1..] == [];
      assert Path(n, m, msgs, Advance(at, st), []);
      assert buffer + [st] == [st];
    } else {
      assert (buffer + [st])[1..] == buffer[1..] + [st];
      PathSnoc(n, m, msgs, Advance(at, buffer[0]), buffer[1..], st);
    }
  }

  /** What the producer sees through its store buffer is memory as it will be once the buffer has drained. */
  lemma {:induction false} Forwarding<T>(n: nat, m: nat, mem: Memory<T>, msgs: seq<seq<T>>, at: Pos, buffer: seq<Store<T>>, slot: nat)
    requires n >= 1 && slot < n && MemOk(n, m, mem, msgs, at) && Path(n, m, msgs, at, buffer)
    ensures MemOk(n, m, ApplyAll(mem, buffer), msgs, End(at, buffer))
    ensures LoadWriter(mem, buffer) == ApplyAll(mem, buffer).writer
    ensures LoadVersion(mem, buffer, slot) == ApplyAll(mem, buffer).versions[slot]
    decreases |buffer|
  {
    if buffer == [] {
    } else {
      var init, last := buffer[..|buffer| - 1], buffer[|buffer| - 1];
      assert buffer == init + [last];
      PathSnoc(n, m, msgs, at, init, last);
      Forwarding(n, m, mem, msgs, at, init, slot);
      StoreKeeps(n, m, ApplyAll(mem, init), msgs, End(at, init), last);
    }
  }

  /** More messages do not disturb stores already issued. */
  lemma {:induction false} PathMore<T>(n: nat, m: nat, msgs: seq<seq<T>>, val: seq<T>, at: Pos, buffer: seq<Store<T>>)
    requires n >= 1 && Path(n, m, msgs, at, buffer)
    ensures Path(n, m, msgs + [val], at, buffer)
    decreases |buffer|
  {
    if buffer == [] {
    } else {
      PathMore(n, m, msgs, val, Advance(at, buffer[0]), buffer[1..]);
    }
  }

  lemma MemMore<T>(n: nat, m: nat, mem: Memory<T>, msgs: seq<seq<T>>, val: seq<T>, at: Pos)
    requires n >= 1 && MemOk(n, m, mem, msgs, at)
    ensures MemOk(n, m, mem, msgs + [val], at)
  {
    forall j | 0 <= j < n
      ensures SlotOk(n, m, mem, msgs + [val], at, j)
    {
      assert SlotOk(n, m, mem, msgs, at, j);
    }
  }

  // ---------------------------------------------------------------- the invariant

  /** The producer's registers agree with the message it is pushing. */
  ghost predicate ProducerOk<T>(n: nat, m: nat, p: Producer<T>, msgs: seq<seq<T>>)
    requires n >= 1
  {
    match p
    case PIdle => true
    case PLoadVersion(val, w) => w + 1 == |msgs| && msgs[w] == val && |val| == m
    case POpen(val, w, ver) => w + 1 == |msgs| && msgs[w] == val && |val| == m && ver == 2 * (w / n)
    case PData(val, w, ver, _) => w + 1 == |msgs| && msgs[w] == val && |val| == m && ver == 2 * (w / n)
    case PPublish(w) => w + 1 == |msgs| && |msgs[w]| == m
  }

  /**
   A consumer has returned exactly the messages from where it began; the words it is holding are those
   of the message it wants, unless the slot's version has moved on since.
   */
  ghost predicate ConsumerOk<T>(n: nat, m: nat, mem: Memory<T>, msgs: seq<seq<T>>, c: Consumer<T>)
    requires n >= 1 && |mem.versions| == n
  {
    && c.start <= c.reader <= |msgs| && c.got == msgs[c.start..c.reader]
    && (c.place.CCopy? ==>
        var v := mem.versions[c.reader % n];
        && v >= 2 * (c.reader / n + 1)
        && (v == 2 * (c.reader / n + 1) ==>
            forall k: nat | k in c.place.temp && k < m ::
              c.reader < |msgs| && k < |msgs[c.reader]| && c.place.temp[k] == msgs[c.reader][k]))
  }

  ghost predicate Inv<T>(s: State<T>) {
    InvParts(s) == true
  }

  ghost predicate InvParts<T>(s: State<T>) {
    var n := Pow2(s.k);
    && s.m >= 1 && s.at.i <= |s.msgs|
    && MemOk(n, s.m, s.mem, s.msgs, s.at)
    && Path(n, s.m, s.msgs, s.at, s.buffer)
    && End(s.at, s.buffer) == Issued(s.p, |s.msgs|)
    && ProducerOk(n, s.m, s.p, s.msgs)
    && forall id | 0 <= id < |s.consumers| :: ConsumerOk(n, s.m, s.mem, s.msgs, s.consumers[id])
  }

  lemma SlotIsMod(k: nat, w: nat)
    ensures Slot(k, w) == w % Pow2(k) < Pow2(k)
    ensures Shr(w, k) == w / Pow2(k)
    ensures Expected(k, w) == 2 * (w / Pow2(k) + 1)
  {
    MaskIsMod(w, k);
    ShrIs(w, k);
  }

  lemma {:induction false} ShrIs(a: nat, s: nat)
    ensures Shr(a, s) == a / Pow2(s)
    decreases s
  {
    if s == 0 {
    } else {
      ShrIs(a / 2, s - 1);
      DivDouble(a, Pow2(s - 1));
    }
  }

  lemma DivDouble(x: nat, p: nat)
    requires p >= 1
    ensures x / (2 * p) == (x / 2) / p
  {
    var h := x / 2;
    var q, r := h / p, h % p;
    assert h == q * p + r;
    var rem := 2 * r + x % 2;
    assert x == q * (2 * p) + rem by {
      assert 2 * (q * p) == q * (2 * p);
    }
    DivModUnique(x, 2 * p, q, rem);
  }

  /** No step leaves memory. */
  lemma InvSafe<T>(s: State<T>, a: Action<T>)
    requires Inv(s)
    requires a.Producing? ==> |a.val| == s.m
    requires a.Drain? ==> s.buffer != []
    requires a.Popping? ==> a.id < |s.consumers| && !s.consumers[a.id].place.CAborted?
    ensures Safe(s, a)
  {
    var n := Pow2(s.k);
    match a
    case Producing(_, _) =>
      if s.p.PLoadVersion? {
        SlotIsMod(s.k, s.p.w);
      }
    case Drain => StoreKeeps(n, s.m, s.mem, s.msgs, s.at, s.buffer[0]);
    case MakeConsumer =>
    case Popping(id, _) =>
      var r := s.consumers[id].reader;
      SlotIsMod(s.k, r);
      assert SlotOk(n, s.m, s.mem, s.msgs, s.at, r % n);
  }

  // ---------------------------------------------------------------- the producer

  lemma ConsumersMore<T>(n: nat, m: nat, mem: Memory<T>, msgs: seq<seq<T>>, val: seq<T>, c: Consumer<T>)
    requires n >= 1 && |mem.versions| == n && ConsumerOk(n, m, mem, msgs, c)
    ensures ConsumerOk(n, m, mem, msgs + [val], c)
  {
    assert (msgs + [val])[c.start..c.reader] == msgs[c.start..c.reader];
  }

  lemma PushBegins<T>(s: State<T>, val: seq<T>, word: nat)
    requires Inv(s) && s.p.PIdle? && Safe(s, Producing(val, word))
    ensures Inv(PushStep(s, val, word))
  {
    var n := Pow2(s.k);
    Forwarding(n, s.m, s.mem, s.msgs, s.at, s.buffer, 0);
    MemMore(n, s.m, s.mem, s.msgs, val, s.at);
    PathMore(n, s.m, s.msgs, val, s.at, s.buffer);
    forall id | 0 <= id < |s.consumers|
      ensures ConsumerOk(n, s.m, s.mem, s.msgs + [val], s.consumers[id])
    {
      ConsumersMore(n, s.m, s.mem, s.msgs, val, s.consumers[id]);
    }
  }

  /** The version the producer loads, forwarded or not, is the number of complete rounds of its slot. */
  lemma PushLoads<T>(s: State<T>, val: seq<T>, word: nat)
    requires Inv(s) && s.p.PLoadVersion? && Safe(s, Producing(val, word))
    ensures Inv(PushStep(s, val, word))
  {
    var n, w := Pow2(s.k), s.p.w;
    SlotIsMod(s.k, w);
    Forwarding(n, s.m, s.mem, s.msgs, s.at, s.buffer, w % n);
    var mem := ApplyAll(s.mem, s.buffer);
    assert SlotOk(n, s.m, mem, s.msgs, Pos(w, Start), w % n);
    assert mem.versions[w % n] == 2 * (w / n);
  }

  /** The producer issues its next store. */
  lemma PushIssues<T>(s: State<T>, t: State<T>, st: Store<T>)
    requires Inv(s) && SpmcQueue.Next(Pow2(s.k), s.m, s.msgs, End(s.at, s.buffer), st)
    requires t == s.(buffer := s.buffer + [st], p := t.p)
    requires Advance(End(s.at, s.buffer), st) == Issued(t.p, |s.msgs|)
    requires ProducerOk(Pow2(s.k), s.m, t.p, s.msgs)
    ensures Inv(t)
  {
    PathSnoc(Pow2(s.k), s.m, s.msgs, s.at, s.buffer, st);
  }

  lemma PushKeeps<T>(s: State<T>, val: seq<T>, word: nat)
    requires Inv(s) && Safe(s, Producing(val, word))
    ensures Inv(PushStep(s, val, word))
  {
    var t := PushStep(s, val, word);
    match s.p
    case PIdle => PushBegins(s, val, word);
    case PLoadVersion(_, _) => PushLoads(s, val, word);
    case POpen(v, w, ver) =>
      SlotIsMod(s.k, w);
      PushIssues(s, t, Version(Slot(s.k, w), ver + 1));
    case PData(v, w, ver, done) =>
      SlotIsMod(s.k, w);
      if All(done, s.m) {
        PushIssues(s, t, Version(Slot(s.k, w), ver + 2));
      } else if word < s.m {
        PushIssues(s, t, Data(Slot(s.k, w), word, v[word]));
      }
    case PPublish(w) =>
      PushIssues(s, t, Writer(w + 1));
  }

  // ---------------------------------------------------------------- memory

  /** Versions only grow. */
  lemma VersionsGrow<T>(n: nat, m: nat, mem: Memory<T>, msgs: seq<seq<T>>, at: Pos, st: Store<T>, j: nat)
    requires n >= 1 && j < n && MemOk(n, m, mem, msgs, at) && SpmcQueue.Next(n, m, msgs, at, st)
    ensures InMemory(mem, st) && |Apply(mem, st).versions| == n
    ensures Apply(mem, st).versions[j] >= mem.versions[j]
  {
    StoreKeeps(n, m, mem, msgs, at, st);
    assert SlotOk(n, m, mem, msgs, at, j);
  }

  lemma DrainKeeps<T>(s: State<T>)
    requires Inv(s) && Safe(s, Drain)
    ensures Inv(DrainStep(s))
  {
    var n, st := Pow2(s.k), s.buffer[0];
    var mem := Apply(s.mem, st);
    StoreKeeps(n, s.m, s.mem, s.msgs, s.at, st);
    forall id | 0 <= id < |s.consumers|
      ensures ConsumerOk(n, s.m, mem, s.msgs, s.consumers[id])
    {
      var c := s.consumers[id];
      assert ConsumerOk(n, s.m, s.mem, s.msgs, c);
      VersionsGrow(n, s.m, s.mem, s.msgs, s.at, st, c.reader % n);
    }
  }

  // ---------------------------------------------------------------- the consumers

  lemma NewConsumer<T>(s: State<T>)
    requires Inv(s)
    ensures Inv(Step(s, MakeConsumer))
  {
    assert s.msgs[s.mem.writer..s.mem.writer] == [];
  }

  lemma PopPlace<T>(s: State<T>, id: nat, word: nat)
    requires Inv(s) && Safe(s, Popping(id, word))
    ensures ConsumerOk(Pow2(s.k), s.m, s.mem, s.msgs, PopStep(s, id, word))
  {
    var n, c := Pow2(s.k), s.consumers[id];
    assert ConsumerOk(n, s.m, s.mem, s.msgs, c);
    SlotIsMod(s.k, c.reader);
    VersionIdentifies(n, s.m, s.mem, s.msgs, s.at, c.reader);
    if c.place.CCopy? && All(c.place.temp.Keys, s.m) && s.mem.versions[c.reader % n] == Expected(s.k, c.reader) {
      var msg := Copy(c.place.temp, s.m);
      assert |s.msgs[c.reader]| == s.m;
      assert msg == s.msgs[c.reader];
      assert s.msgs[c.start..c.reader + 1] == s.msgs[c.start..c.reader] + [s.msgs[c.reader]];
    }
  }

  lemma PopKeeps<T>(s: State<T>, id: nat, word: nat)
    requires Inv(s) && Safe(s, Popping(id, word))
    ensures Inv(Step(s, Popping(id, word)))
  {
    PopPlace(s, id, word);
  }

  lemma StepKeeps<T>(s: State<T>, a: Action<T>)
    requires Inv(s) && Safe(s, a)
    ensures Inv(Step(s, a))
  {
    match a
    case Producing(val, word) => PushKeeps(s, val, word);
    case Drain => DrainKeeps(s);
    case MakeConsumer => NewConsumer(s);
    case Popping(id, word) => PopKeeps(s, id, word);
  }

  // ---------------------------------------------------------------- what pop answers

  /** When `pop` returns true, the copy is message number `reader`, whole and unmixed. */
  lemma NoTornReads<T>(s: State<T>, id: nat, word: nat)
    requires Inv(s) && Safe(s, Popping(id, word)) && EventOf(s, Popping(id, word)).Delivered?
    ensures var r := s.consumers[id].reader;
            r < |s.msgs| && EventOf(s, Popping(id, word)).msg == s.msgs[r]
  {
    PopPlace(s, id, word);
    var c, d := s.consumers[id], PopStep(s, id, word);
    assert d.got == s.msgs[c.start..c.reader + 1];
  }

  /** `pop` returns false exactly when message number `reader` had not been published at the first version load. */
  lemma EmptyExactly<T>(s: State<T>, id: nat, word: nat)
    requires Inv(s) && Safe(s, Popping(id, word))
    ensures EventOf(s, Popping(id, word)).Empty? <==>
              s.consumers[id].place.CIdle? && !Published(s.at, s.consumers[id].reader)
  {
    var r := s.consumers[id].reader;
    SlotIsMod(s.k, r);
    VersionIdentifies(Pow2(s.k), s.m, s.mem, s.msgs, s.at, r);
  }

  /**
   A consumer aborts exactly when the push one lap ahead of it has begun by one of its two version
   loads; a consumer that is never lapped never aborts.
   */
  lemma AbortsExactly<T>(s: State<T>, id: nat, word: nat)
    requires Inv(s) && Safe(s, Popping(id, word))
    ensures EventOf(s, Popping(id, word)).Aborted? <==>
              && Begun(s.at, s.consumers[id].reader + Pow2(s.k))
              && var place := s.consumers[id].place; (place.CIdle? || (place.CCopy? && All(place.temp.Keys, s.m)))
  {
    var n, r := Pow2(s.k), s.consumers[id].reader;
    assert ConsumerOk(n, s.m, s.mem, s.msgs, s.consumers[id]);
    SlotIsMod(s.k, r);
    VersionIdentifies(n, s.m, s.mem, s.msgs, s.at, r);
  }

  /** With fewer than 2^64 pushes and at least four slots, no version and no counter overflows its 64 bits. */
  lemma NoOverflow<T>(s: State<T>, j: nat)
    requires Inv(s) && s.k >= 2 && |s.msgs| < W && j < |s.mem.versions|
    ensures s.mem.versions[j] < W && s.mem.writer < W
  {
    var n := Pow2(s.k);
    assert SlotOk(n, s.m, s.mem, s.msgs, s.at, j);
    assert Pow2(2) == 4;
    Pow2Monotone(2, s.k);
    QuotientSmall(s.at.i, n);
  }

  lemma QuotientSmall(i: nat, n: nat)
    requires n >= 4
    ensures 4 * (i / n) <= i
  {
    MulAtLeast(4, n, i / n);
    assert i == (i / n) * n + i % n;
  }

  // ---------------------------------------------------------------- whole runs

  function Exec<T>(s: State<T>, schedule: seq<Action<T>>): State<T> {
    if schedule == [] then s
    else
      var before := Exec(s, schedule[..|schedule| - 1]);
      var a := schedule[|schedule| - 1];
      if Safe(before, a) then Step(before, a) else before
  }

  lemma InitInv<T>(s: State<T>)
    requires Init(s)
    ensures Inv(s)
  {
    var n := Pow2(s.k);
    forall j | 0 <= j < n
      ensures SlotOk(n, s.m, s.mem, s.msgs, s.at, j)
    {
      assert 0 / n == 0 && 0 % n == 0;
    }
  }

  lemma {:induction false} RunInv<T>(s: State<T>, schedule: seq<Action<T>>)
    requires Init(s)
    ensures Inv(Exec(s, schedule))
  {
    if schedule == [] {
      InitInv(s);
    } else {
      RunInv(s, schedule[..|schedule| - 1]);
      var before := Exec(s, schedule[..|schedule| - 1]);
      var a := schedule[|schedule| - 1];
      if Safe(before, a) {
        StepKeeps(before, a);
      }
    }
  }

  /** The messages whose push has begun in a run, in order. */
  function Pushed<T>(s: State<T>, schedule: seq<Action<T>>): seq<seq<T>> {
    if schedule == [] then []
    else
      var init := schedule[..|schedule| - 1];
      var before, a := Exec(s, init), schedule[|schedule| - 1];
      Pushed(s, init) + (if Safe(before, a) && a.Producing? && before.p.PIdle? then [a.val] else [])
  }

  /** How many pushes' stores of `writer` have reached memory in a run. */
  function Arrived<T>(s: State<T>, schedule: seq<Action<T>>): nat {
    if schedule == [] then 0
    else
      var init := schedule[..|schedule| - 1];
      var before, a := Exec(s, init), schedule[|schedule| - 1];
      Arrived(s, init) + (if Safe(before, a) && a.Drain? && before.buffer[0].Writer? then 1 else 0)
  }

  /** What `pop` has returned to consumer id in a run. */
  function Deliveries<T>(s: State<T>, schedule: seq<Action<T>>, id: nat): seq<seq<T>> {
    if schedule == [] then []
    else
      var init := schedule[..|schedule| - 1];
      var before, a := Exec(s, init), schedule[|schedule| - 1];
      Deliveries(s, init, id) + (if Safe(before, a) then DeliveredTo(EventOf(before, a), id) else [])
  }

  function DeliveredTo<T>(e: Event<T>, id: nat): seq<seq<T>> {
    if e.Delivered? && e.id == id then [e.msg] else []
  }

  /** A store of `writer` that reaches memory there adds one; nothing else touches it. */
  lemma WriterCounts<T>(s: State<T>, a: Action<T>)
    requires Inv(s) && Safe(s, a)
    ensures Step(s, a).mem.writer == s.mem.writer + (if a.Drain? && s.buffer[0].Writer? then 1 else 0)
  {
  }

  /** The bookkeeping of a run is what happened in it. */
  lemma {:induction false} RunBooks<T>(s: State<T>, schedule: seq<Action<T>>)
    requires Init(s)
    ensures Exec(s, schedule).msgs == Pushed(s, schedule)
    ensures Exec(s, schedule).mem.writer == Arrived(s, schedule)
  {
    if schedule != [] {
      var init := schedule[..|schedule| - 1];
      RunBooks(s, init);
      RunInv(s, init);
      var before, a := Exec(s, init), schedule[|schedule| - 1];
      if Safe(before, a) {
        WriterCounts(before, a);
      }
    }
  }

  /** What a step does to the consumers there are: they keep where they began, and get what is delivered to them. */
  lemma StepDelivers<T>(s: State<T>, a: Action<T>, id: nat)
    requires Safe(s, a) && id < |s.consumers|
    ensures id < |Step(s, a).consumers| && Step(s, a).consumers[id].start == s.consumers[id].start
    ensures Step(s, a).consumers[id].got == s.consumers[id].got + DeliveredTo(EventOf(s, a), id)
  {
  }

  lemma OnlyToThose<T>(s: State<T>, a: Action<T>, id: nat)
    requires Safe(s, a) && id >= |s.consumers|
    ensures DeliveredTo(EventOf(s, a), id) == [] && |Step(s, a).consumers| >= |s.consumers|
  {
  }

  lemma {:induction false} NothingBefore<T>(s: State<T>, schedule: seq<Action<T>>, id: nat)
    requires Init(s) && id >= |Exec(s, schedule).consumers|
    ensures Deliveries(s, schedule, id) == []
  {
    if schedule != [] {
      var init, a := schedule[..|schedule| - 1], schedule[|schedule| - 1];
      var before := Exec(s, init);
      if id < |before.consumers| {
        if Safe(before, a) {
          StepDelivers(before, a, id);
        }
        assert false;
      }
      NothingBefore(s, init, id);
      if Safe(before, a) {
        OnlyToThose(before, a, id);
      }
    }
  }

  /** Consumer id began at `from` and has got what the run delivered to it. */
  ghost predicate BeganAt<T>(s: State<T>, schedule: seq<Action<T>>, id: nat, from: nat) {
    && id < |Exec(s, schedule).consumers|
    && Exec(s, schedule).consumers[id].start == from
    && Exec(s, schedule).consumers[id].got == Deliveries(s, schedule, id)
  }

  lemma BeganAtOne<T>(s: State<T>, schedule: seq<Action<T>>, a: Action<T>, id: nat, from: nat)
    requires BeganAt(s, schedule, id, from)
    ensures BeganAt(s, schedule + [a], id, from)
  {
    assert (schedule + [a])[..|schedule + [a]| - 1] == schedule;
    var was := Exec(s, schedule);
    if Safe(was, a) {
      StepDelivers(was, a, id);
    }
  }

  lemma BeginsThere<T>(s: State<T>, before: seq<Action<T>>)
    requires Init(s)
    ensures BeganAt(s, before + [MakeConsumer], |Exec(s, before).consumers|, Exec(s, before).mem.writer)
  {
    assert (before + [MakeConsumer])[..|before + [MakeConsumer]| - 1] == before;
    NothingBefore(s, before, |Exec(s, before).consumers|);
  }

  /** From its creation on a consumer keeps where it began, and has got what was delivered to it. */
  lemma {:induction false} ConsumerStays<T>(s: State<T>, before: seq<Action<T>>, after: seq<Action<T>>)
    requires Init(s)
    ensures BeganAt(s, before + [MakeConsumer] + after, |Exec(s, before).consumers|, Exec(s, before).mem.writer)
    decreases |after|
  {
    var id, from := |Exec(s, before).consumers|, Exec(s, before).mem.writer;
    if after == [] {
      BeginsThere(s, before);
      assert before + [MakeConsumer] + after == before + [MakeConsumer];
    } else {
      var init, a := after[..|after| - 1], after[|after| - 1];
      ConsumerStays(s, before, init);
      BeganAtOne(s, before + [MakeConsumer] + init, a, id, from);
      assert before + [MakeConsumer] + after == before + [MakeConsumer] + init + [a];
    }
  }

  /**
   Fan-out: in every run, whatever the other consumers do and whenever stores drain, what a consumer has
   been given is the gap-free, duplicate-free stretch of the messages pushed that starts with the first one
   whose store of `writer` had not reached memory when the consumer was made.
   */
  lemma RunFansOut<T>(s: State<T>, before: seq<Action<T>>, after: seq<Action<T>>)
    requires Init(s)
    ensures var schedule := before + [MakeConsumer] + after;
            var got := Deliveries(s, schedule, |Exec(s, before).consumers|);
            var from := Arrived(s, before);
            && from + |got| <= |Pushed(s, schedule)|
            && got == Pushed(s, schedule)[from..from + |got|]
  {
    var schedule := before + [MakeConsumer] + after;
    var id := |Exec(s, before).consumers|;
    ConsumerStays(s, before, after);
    RunBooks(s, before);
    RunBooks(s, schedule);
    RunInv(s, schedule);
    Stretch(Exec(s, schedule), id);
  }

  lemma Stretch<T>(s: State<T>, id: nat)
    requires Inv(s) && id < |s.consumers|
    ensures var c := s.consumers[id]; c.start + |c.got| <= |s.msgs| && c.got == s.msgs[c.start..c.start + |c.got|]
  {
    var c := s.consumers[id];
    assert ConsumerOk(Pow2(s.k), s.m, s.mem, s.msgs, c);
    assert |s.msgs[c.start..c.reader]| == c.reader - c.start;
  }

  /** Every consumer of a run was made somewhere in it, so this holds of each. */
  lemma {:induction false} WasMade<T>(s: State<T>, schedule: seq<Action<T>>, id: nat)
      returns (before: seq<Action<T>>, after: seq<Action<T>>)
    requires Init(s) && id < |Exec(s, schedule).consumers|
    ensures schedule == before + [MakeConsumer] + after && |Exec(s, before).consumers| == id
  {
    var init, a := schedule[..|schedule| - 1], schedule[|schedule| - 1];
    if id < |Exec(s, init).consumers| {
      before, after := WasMade(s, init, id);
      after := after + [a];
    } else {
      before, after := init, [];
    }
    assert schedule == init + [a];
  }

  /** When every store has reached memory, the pushes counted are all there were: a consumer made then gets only later messages. */
  lemma RunDrained<T>(s: State<T>, schedule: seq<Action<T>>)
    requires Init(s) && Exec(s, schedule).p.PIdle? && Exec(s, schedule).buffer == []
    ensures Arrived(s, schedule) == |Pushed(s, schedule)|
  {
    RunInv(s, schedule);
    RunBooks(s, schedule);
  }
}
