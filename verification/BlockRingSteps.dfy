/** Every micro-step of the block ring is safe and keeps the invariant, one small lemma per kind of step. */
module BlockRingSteps {
  import opened Circular
  import opened BlockRing
  import opened BlockRingInvariant
  import Fifo

  // ---------------------------------------------------------------- safety

  /** The producer never follows a bad pointer, never constructs over a live element, and its assertions hold. */
  lemma ProducerIsSafe<T>(s: State<T>)
    requires Inv(s)
    ensures ProducerSafe(s)
  {
    match s.p
    case PConstruct(v, tb, bt) =>
      BuildInBlock(s.blocks[tb], tb == TakenBlock(s.c), v);
    case PReuseTail(v, nb, nf) =>
      EmptyBlockIndices(s.blocks[nb], nb == TakenBlock(s.c), false);
    case PReuseConstruct(v, nb, nt) =>
      BuildInBlock(s.blocks[nb], nb == TakenBlock(s.c), v);
    case _ =>
  }

  /** The consumer never touches anything but a live element, and its assertions hold. */
  lemma ConsumerIsSafe<T>(s: State<T>)
    requires Inv(s)
    ensures ConsumerSafe(s)
  {
    match s.c
    case CNextTail(op, nb, nf) =>
      assert s.blocks[nb].q != [];
      RefreshLocalTail(s.blocks[nb], false, nb == BuiltBlock(s.p));
      HeadIsLive(s.blocks[nb].(localTail := s.blocks[nb].tail), nb == BuiltBlock(s.p));
    case CTake(op, b, f) =>
      HeadIsLive(s.blocks[b], b == BuiltBlock(s.p));
    case _ =>
  }

  // ---------------------------------------------------------------- producer

  /** The parts of the invariant put together again after a producer step. */
  lemma ProducerAssemble<T>(s: State<T>, t: State<T>)
    requires Inv(s)
    requires RingOk(t.blocks, t.ring, t.t, t.frontBlock, t.tailBlock)
    requires BlocksOk(t.blocks, TakenBlock(s.c), BuiltBlock(t.p))
    requires Filled(t.blocks, t.ring, t.t, t.p.PPublish?)
    requires AllLinked(t.blocks, t.ring, PrivateBlock(t.p))
    requires t.max == s.max && t.largest >= 1
    requires ProducerInv(t)
    requires ProducerFrame(s, t)
    ensures Inv(t)
  {
    ConsumerInvKept(s, t);
  }

  /** A producer step that changes one block but not its element list or its link. */
  lemma ProducerTouch<T>(s: State<T>, t: State<T>, b: int, x: Block<T>)
    requires Inv(s) && Valid(s, b) && !s.p.PPublish? && !t.p.PPublish?
    requires t.blocks == s.blocks[b := x] && t.ring == s.ring && t.t == s.t
    requires t.frontBlock == s.frontBlock && t.tailBlock == s.tailBlock && t.max == s.max && t.largest == s.largest
    requires t.c == s.c && t.saw == s.saw && PrivateBlock(t.p) == PrivateBlock(s.p)
    requires x.next == s.blocks[b].next || b !in s.ring
    requires x.q == s.blocks[b].q && x.size == s.blocks[b].size && x.tail == s.blocks[b].tail
    requires x.front == s.blocks[b].front && x.localTail == s.blocks[b].localTail
    requires |x.data| == |s.blocks[b].data|
    requires s.blocks[b].q != [] && x.front < |x.data| ==> x.data[x.front] == s.blocks[b].data[x.front]
    requires BlockOk(x, b == TakenBlock(s.c), b == BuiltBlock(t.p))
    requires BuiltBlock(s.p) == BuiltBlock(t.p) || (BuiltBlock(s.p) == NULL && BuiltBlock(t.p) == b)
    requires RingOk(t.blocks, t.ring, t.t, t.frontBlock, t.tailBlock) ==> ProducerInv(t)
    ensures Inv(t)
  {
    PutRing(s.blocks, s.ring, s.t, s.frontBlock, s.tailBlock, b, x);
    PutBlocks(s.blocks, TakenBlock(s.c), BuiltBlock(s.p), TakenBlock(s.c), BuiltBlock(t.p), b, x);
    PutFilled(s.blocks, s.ring, s.t, false, b, x);
    ProducerAssemble(s, t);
  }

  // ---------------------------------------------------------------- producer

  lemma ProducerQuiet<T>(s: State<T>, p: Producer<T>)
    requires Inv(s) && BuiltBlock(s.p) == BuiltBlock(p) && PrivateBlock(s.p) == PrivateBlock(p)
    requires !s.p.PPublish? && !p.PPublish?
    requires ProducerInv(s.(p := p))
    ensures Inv(s.(p := p))
  {
    ProducerAssemble(s, s.(p := p));
  }

  /** Refreshing the cached front of the tail block. */
  lemma ProducerLoadFront<T>(s: State<T>, t: State<T>, v: T, alloc: bool, tb: int, bt: nat)
    requires Inv(s) && s.p == PLoadFront(v, alloc, tb, bt)
    requires t == ProducerStep(s, v, alloc, false)
    ensures Inv(t)
  {
    var b := s.blocks[tb];
    RefreshLocalFront(b, tb == TakenBlock(s.c), false);
    assert t.p.PLoadNext? ==> t.seen + 1 >= b.size by {
      if t.p.PLoadNext? {
        AtTail(s.blocks, s.ring, s.t);
      }
    }
    ProducerTouch(s, t, tb, b.(localFront := b.front));
  }

  lemma ProducerConstruct<T>(s: State<T>, v: T, tb: int, bt: nat)
    requires Inv(s) && s.p == PConstruct(v, tb, bt)
    ensures Inv(ProducerStep(s, v, true, true))
  {
    var b := s.blocks[tb];
    BuildInBlock(b, tb == TakenBlock(s.c), v);
    ProducerTouch(s, ProducerStep(s, v, true, true), tb, b.(data := b.data[bt := Live(v)]));
  }

  lemma StoredInTail<T>(s: State<T>, v: T, tb: int, bt: nat) returns (x: Block<T>)
    requires Inv(s) && s.p == PStoreTail(v, tb, bt)
    ensures ProducerSafe(s) && ProducerStep(s, v, true, true) == s.(blocks := s.blocks[tb := x], p := PIdle)
    ensures x == s.blocks[tb].(tail := Next(s.blocks[tb].size, s.blocks[tb].tail), q := s.blocks[tb].q + [v])
    ensures BlockOk(x, tb == TakenBlock(s.c), false)
  {
    var b := s.blocks[tb];
    x := b.(tail := Next(b.size, b.tail), q := b.q + [v]);
    PublishInBlock(b, tb == TakenBlock(s.c), v);
  }

  lemma ProducerStoreTail<T>(s: State<T>, t: State<T>, v: T, tb: int, bt: nat)
    requires Inv(s) && s.p == PStoreTail(v, tb, bt)
    requires t == ProducerStep(s, v, true, true)
    ensures Inv(t) && Q(t) == Q(s) + [v]
  {
    var x := StoredInTail(s, v, tb, bt);
    PutRing(s.blocks, s.ring, s.t, s.frontBlock, s.tailBlock, tb, x);
    PutBlocks(s.blocks, TakenBlock(s.c), tb, TakenBlock(s.c), NULL, tb, x);
    GrowFilled(s.blocks, s.ring, s.t, x);
    GrowQueue(s, t, x, v);
    ProducerAssemble(s, t);
  }

  lemma GrowFilled<T>(blocks: seq<Block<T>>, ring: seq<nat>, t: nat, x: Block<T>)
    requires forall i | 0 <= i < |ring| :: ring[i] < |blocks|
    requires forall i, j | 0 <= i < j < |ring| :: ring[i] != ring[j]
    requires t < |ring| && x.q != []
    requires Filled(blocks, ring, t, false)
    ensures Filled(blocks[ring[t] := x], ring, t, false)
  {
  }

  /** Appending to the tail block appends to the queue. */
  lemma GrowQueue<T>(s: State<T>, t: State<T>, x: Block<T>, v: T)
    requires RingOk(s.blocks, s.ring, s.t, s.frontBlock, s.tailBlock)
    requires x.q == s.blocks[s.tailBlock].q + [v]
    requires t.blocks == s.blocks[s.tailBlock := x] && t.ring == s.ring && t.t == s.t
    ensures Q(t) == Q(s) + [v]
  {
    AtTail(s.blocks, s.ring, s.t);
    AtTail(t.blocks, t.ring, t.t);
    var before := s.ring[..s.t];
    forall i | 0 <= i < |before|
      ensures before[i] < |s.blocks| && s.blocks[before[i]].q == t.blocks[before[i]].q
    {
      assert before[i] == s.ring[i] && s.ring[i] != s.ring[s.t];
    }
    ContentsSame(s.blocks, t.blocks, before);
    calc {
      Q(t);
      Contents(t.blocks, before) + x.q;
      Contents(s.blocks, before) + (s.blocks[s.tailBlock].q + [v]);
      Q(s) + [v];
    }
  }

  /** Changing a block that is not counted yet changes nothing that the queue holds. */
  lemma SameQueue<T>(s: State<T>, t: State<T>, b: int)
    requires RingOk(s.blocks, s.ring, s.t, s.frontBlock, s.tailBlock)
    requires t.t == s.t && t.t < |t.ring| && t.ring[..t.t + 1] == s.ring[..s.t + 1]
    requires |s.blocks| <= |t.blocks|
    requires forall i | 0 <= i < |s.blocks| && i != b :: t.blocks[i].q == s.blocks[i].q
    requires forall i | 0 <= i <= s.t :: s.ring[i] != b
    ensures Q(t) == Q(s)
  {
    var ids := s.ring[..s.t + 1];
    assert forall i | 0 <= i < |ids| :: ids[i] == s.ring[i];
    ContentsSame(s.blocks, t.blocks, ids);
  }

  lemma ProducerReuseFront<T>(s: State<T>, v: T, nb: int)
    requires Inv(s) && s.p == PReuseFront(v, nb)
    ensures Inv(ProducerStep(s, v, true, true))
  {
    var b := s.blocks[nb];
    RefreshLocalFront(b, nb == TakenBlock(s.c), false);
    ProducerTouch(s, ProducerStep(s, v, true, true), nb, b.(localFront := b.front));
  }

  lemma ProducerReuseTail<T>(s: State<T>, v: T, nb: int, nf: nat)
    requires Inv(s) && s.p == PReuseTail(v, nb, nf)
    ensures ProducerSafe(s) && Inv(ProducerStep(s, v, true, true))
  {
    var b := s.blocks[nb];
    EmptyBlockIndices(b, nb == TakenBlock(s.c), false);
    assert b.(localFront := nf) == b;
    ProducerTouch(s, ProducerStep(s, v, true, true), nb, b);
  }

  lemma ProducerReuseConstruct<T>(s: State<T>, v: T, nb: int, nt: nat)
    requires Inv(s) && s.p == PReuseConstruct(v, nb, nt)
    ensures ProducerSafe(s) && Inv(ProducerStep(s, v, true, true))
  {
    var b := s.blocks[nb];
    EmptyBlockIndices(b, nb == TakenBlock(s.c), false);
    BuildInBlock(b, nb == TakenBlock(s.c), v);
    var t := ProducerStep(s, v, true, true);
    var x := b.(data := b.data[nt := Live(v)]);
    assert t.blocks[nb] == x;
    assert IsSpare(t, nb) && TailFull(t);
    ProducerTouch(s, t, nb, x);
  }

  lemma FillEmptyBlock<T>(b: Block<T>, taken: bool, v: T)
    requires BlockOk(b, taken, true) && b.q == [] && b.localFront == b.front && b.data[b.tail] == Live(v)
    requires !taken
    ensures BlockOk(b.(tail := Next(b.size, b.tail), q := [v]), taken, false)
  {
    EmptyBlockIndices(b, taken, true);
    PublishInBlock(b, taken, v);
    assert b.q + [v] == [v];
  }

  /** What the store to the spare block's tail leaves there: a block that holds just the element. */
  lemma StoredInSpare<T>(s: State<T>, v: T, nb: int, nt: nat) returns (x: Block<T>)
    requires Inv(s) && s.p == PReuseStore(v, nb, nt)
    ensures ProducerSafe(s) && ProducerStep(s, v, true, true) == s.(blocks := s.blocks[nb := x], p := PPublish(v, nb))
    ensures BlockOk(x, false, false) && nb != s.frontBlock
    ensures x == s.blocks[nb].(tail := Next(s.blocks[nb].size, s.blocks[nb].tail), q := [v])
  {
    var b := s.blocks[nb];
    FillEmptyBlock(b, false, v);
    assert b.q + [v] == [v];
    x := b.(tail := Next(b.size, b.tail), q := [v]);
  }

  lemma ProducerReuseStore<T>(s: State<T>, t: State<T>, v: T, nb: int, nt: nat)
    requires Inv(s) && s.p == PReuseStore(v, nb, nt)
    requires t == ProducerStep(s, v, true, true)
    ensures Inv(t) && Q(t) == Q(s)
  {
    var x := StoredInSpare(s, v, nb, nt);
    assert BlocksOk(t.blocks, TakenBlock(s.c), NULL) by {
      PutBlocks(s.blocks, TakenBlock(s.c), nb, TakenBlock(s.c), NULL, nb, x);
    }
    PutRing(s.blocks, s.ring, s.t, s.frontBlock, s.tailBlock, nb, x);
    FillSpare(s.blocks, s.ring, s.t, nb, x);
    SameQueue(s, t, nb);
    BecomesPending(s, t, nb, x, v, nb);
  }

  lemma FillSpare<T>(blocks: seq<Block<T>>, ring: seq<nat>, t: nat, nb: int, x: Block<T>)
    requires forall i | 0 <= i < |ring| :: ring[i] < |blocks|
    requires forall i, j | 0 <= i < j < |ring| :: ring[i] != ring[j]
    requires t + 1 < |ring| && nb == ring[t + 1]
    requires Filled(blocks, ring, t, false)
    ensures Filled(blocks[nb := x], ring, t, true)
  {
  }

  /** A block outside the ring, or one just allocated, does not matter to the ring. */
  lemma GrowRing<T>(blocks: seq<Block<T>>, ring: seq<nat>, t: nat, frontBlock: int, tailBlock: int, taken: int, x: Block<T>)
    requires RingOk(blocks, ring, t, frontBlock, tailBlock) && Filled(blocks, ring, t, false)
    requires BlocksOk(blocks, taken, NULL) && AllLinked(blocks, ring, NULL) && BlockOk(x, |blocks| == taken, false)
    ensures RingOk(blocks + [x], ring, t, frontBlock, tailBlock) && Filled(blocks + [x], ring, t, false)
    ensures BlocksOk(blocks + [x], taken, NULL) && AllLinked(blocks + [x], ring, |blocks|)
  {
    var blocks' := blocks + [x];
    forall i | 0 <= i < |ring|
      ensures LinkAt(blocks', ring, i)
    {
      assert LinkAt(blocks, ring, i);
    }
  }

  lemma Allocated<T>(s: State<T>, v: T, tb: int) returns (x: Block<T>)
    requires Inv(s) && s.p == PAlloc(v, tb)
    ensures ProducerStep(s, v, true, true) ==
            s.(blocks := s.blocks + [x], largest := x.size, p := PInit(v, tb, |s.blocks|))
    ensures x == FreshBlock(x.size) && BlockOk(x, false, false) && x.size >= 1
  {
    x := FreshBlock(GrownSize(s.largest, s.max));
  }

  /** What the producer knows once it has its new block. */
  lemma KnowsNewBlock<T>(s: State<T>, t: State<T>, v: T, tb: int, x: Block<T>)
    requires Inv(s) && s.p == PAlloc(v, tb) && x == FreshBlock(x.size)
    requires t == s.(blocks := s.blocks + [x], largest := x.size, p := PInit(v, tb, |s.blocks|))
    requires RingOk(t.blocks, t.ring, t.t, t.frontBlock, t.tailBlock)
    ensures ProducerInv(t) && ProducerFrame(s, t)
  {
    assert t.blocks[s.ring[s.t]] == s.blocks[s.ring[s.t]];
    assert t.blocks[s.frontBlock] == s.blocks[s.frontBlock];
  }

  lemma ProducerAllocate<T>(s: State<T>, t: State<T>, v: T, tb: int)
    requires Inv(s) && s.p == PAlloc(v, tb)
    requires t == ProducerStep(s, v, true, true)
    ensures Inv(t) && Q(t) == Q(s)
  {
    var x := Allocated(s, v, tb);
    GrowRing(s.blocks, s.ring, s.t, s.frontBlock, s.tailBlock, TakenBlock(s.c), x);
    KnowsNewBlock(s, t, v, tb, x);
    SameQueue(s, t, |s.blocks|);
    ProducerAssemble(s, t);
  }

  lemma FirstElement<T>(b: Block<T>, v: T)
    requires b == FreshBlock(b.size) && b.size >= 2
    ensures BlockOk(b.(data := b.data[0 := Live(v)], tail := 1, localTail := 1, q := [v]), false, false)
  {
    assert BlockOk(b, false, false);
    BuildInBlock(b, false, v);
    PublishInBlock(b.(data := b.data[0 := Live(v)]), false, v);
    assert [] + [v] == [v];
    RefreshLocalTail(b.(data := b.data[0 := Live(v)], tail := 1, q := [v]), false, false);
  }

  lemma FilledNew<T>(s: State<T>, v: T, tb: int, nb: int) returns (x: Block<T>)
    requires Inv(s) && s.p == PInit(v, tb, nb)
    ensures ProducerSafe(s) && ProducerStep(s, v, true, true) == s.(blocks := s.blocks[nb := x], p := PLinkNew(v, tb, nb))
    ensures BlockOk(x, false, false) && x.q == [v] && nb !in s.ring
  {
    var b := s.blocks[nb];
    assert BlockOk(b, nb == TakenBlock(s.c), false);
    FirstElement(b, v);
    x := b.(data := b.data[0 := Live(v)], tail := 1, localTail := 1, q := [v]);
  }

  lemma ProducerInit<T>(s: State<T>, t: State<T>, v: T, tb: int, nb: int)
    requires Inv(s) && s.p == PInit(v, tb, nb)
    requires ProducerSafe(s) && t == ProducerStep(s, v, true, true)
    ensures Inv(t) && Q(t) == Q(s)
  {
    var x := FilledNew(s, v, tb, nb);
    PutRing(s.blocks, s.ring, s.t, s.frontBlock, s.tailBlock, nb, x);
    PutBlocks(s.blocks, TakenBlock(s.c), NULL, TakenBlock(s.c), NULL, nb, x);
    PutOutside(s.blocks, s.ring, s.t, nb, x);
    SameQueue(s, t, nb);
    ProducerAssemble(s, t);
  }

  lemma PutOutside<T>(blocks: seq<Block<T>>, ring: seq<nat>, t: nat, b: int, x: Block<T>)
    requires forall i | 0 <= i < |ring| :: ring[i] < |blocks|
    requires 0 <= b < |blocks| && b !in ring
    requires Filled(blocks, ring, t, false)
    ensures Filled(blocks[b := x], ring, t, false)
  {
  }

  lemma ProducerLinkNew<T>(s: State<T>, v: T, tb: int, nb: int)
    requires Inv(s) && s.p == PLinkNew(v, tb, nb)
    ensures Inv(ProducerStep(s, v, true, true))
  {
    var b := s.blocks[nb];
    assert nb !in s.ring;
    assert LinkAt(s.blocks, s.ring, s.t);
    var x := b.(next := s.blocks[tb].next);
    ProducerTouch(s, ProducerStep(s, v, true, true), nb, x);
  }

  lemma InsertedDistinct(ring: seq<nat>, t: nat, nb: nat)
    requires t < |ring| && nb !in ring
    requires forall i, j | 0 <= i < j < |ring| :: ring[i] != ring[j]
    ensures var r := Inserted(ring, t, nb); forall i, j | 0 <= i < j < |r| :: r[i] != r[j]
  {
    var r := Inserted(ring, t, nb);
    forall i, j | 0 <= i < j < |r|
      ensures r[i] != r[j]
    {
      if i == t + 1 {
        assert ring[j - 1] in ring;
      } else if j == t + 1 {
        assert ring[i] in ring;
      }
    }
  }

  /** Linking a block behind the tail block keeps the ring a ring. */
  lemma InsertInRing<T>(blocks: seq<Block<T>>, ring: seq<nat>, t: nat, frontBlock: int, tailBlock: int, nb: nat, x: Block<T>)
    requires RingOk(blocks, ring, t, frontBlock, tailBlock)
    requires nb < |blocks| && nb !in ring && blocks[nb].next == ring[Next(|ring|, t)]
    requires x == blocks[tailBlock].(next := nb)
    ensures RingOk(blocks[tailBlock := x], Inserted(ring, t, nb), t, frontBlock, tailBlock)
  {
    var r := Inserted(ring, t, nb);
    InsertedDistinct(ring, t, nb);
    var blocks' := blocks[tailBlock := x];
    forall i | 0 <= i < |r|
      ensures LinkAt(blocks', r, i)
    {
      assert i > t + 1 ==> LinkAt(blocks, ring, i - 1);
      assert i < t ==> LinkAt(blocks, ring, i);
      InsertedLink(blocks, ring, t, nb, x, i);
    }
  }

  lemma InsertedLink<T>(blocks: seq<Block<T>>, ring: seq<nat>, t: nat, nb: nat, x: Block<T>, i: nat)
    requires forall i | 0 <= i < |ring| :: ring[i] < |blocks|
    requires forall i, j | 0 <= i < j < |ring| :: ring[i] != ring[j]
    requires t < |ring| && i <= |ring| && nb < |blocks| && nb !in ring
    requires i > t + 1 ==> blocks[ring[i - 1]].next == ring[Next(|ring|, i - 1)]
    requires i < t ==> blocks[ring[i]].next == ring[Next(|ring|, i)]
    requires blocks[nb].next == ring[Next(|ring|, t)] && x.next == nb
    ensures var r := Inserted(ring, t, nb); blocks[ring[t] := x][r[i]].next == r[Next(|r|, i)]
  {
    assert ring[t] in ring;
  }

  lemma FilledAfterInsert<T>(blocks: seq<Block<T>>, ring: seq<nat>, t: nat, tb: int, nb: nat, x: Block<T>)
    requires forall i | 0 <= i < |ring| :: ring[i] < |blocks|
    requires t < |ring| && nb < |blocks| && 0 <= tb < |blocks| && x.q == blocks[tb].q && x.size == blocks[tb].size
    requires Filled(blocks, ring, t, false)
    ensures Filled(blocks[tb := x], Inserted(ring, t, nb), t, true)
  {
    var r := Inserted(ring, t, nb);
    var blocks' := blocks[tb := x];
    assert forall i | 0 <= i < |blocks| :: blocks'[i].q == blocks[i].q && blocks'[i].size == blocks[i].size;
    forall i | 0 <= i < |r|
      ensures 0 < i < t ==> Full(blocks'[r[i]])
      ensures 0 < i == t ==> blocks'[r[i]].q != []
      ensures t < i && i != t + 1 ==> blocks'[r[i]].q == []
    {
      if i > t + 1 {
        assert r[i] == ring[i - 1];
      }
    }
  }

  lemma LinkedAfterInsert(count: nat, ring: seq<nat>, t: nat, nb: nat)
    requires t < |ring|
    requires forall b | 0 <= b < count :: b in ring || b == nb
    ensures forall b | 0 <= b < count :: b in Inserted(ring, t, nb)
  {
    var r := Inserted(ring, t, nb);
    forall b | 0 <= b < count
      ensures b in r
    {
      assert r[t + 1] == nb;
      if b != nb {
        assert b in ring;
        var i :| 0 <= i < |ring| && ring[i] == b;
        assert r[if i <= t then i else i + 1] == b;
      }
    }
  }

  lemma ProducerLinkTail<T>(s: State<T>, t: State<T>, v: T, tb: int, nb: int)
    requires Inv(s) && s.p == PLinkTail(v, tb, nb)
    requires t == ProducerStep(s, v, true, true)
    ensures Inv(t) && Q(t) == Q(s)
  {
    var x := s.blocks[tb].(next := nb);
    assert nb !in s.ring;
    assert t.blocks == s.blocks[tb := x] && t.ring == Inserted(s.ring, s.t, nb);
    InsertInRing(s.blocks, s.ring, s.t, s.frontBlock, s.tailBlock, nb, x);
    assert BlocksOk(t.blocks, TakenBlock(s.c), NULL) by {
      PutBlocks(s.blocks, TakenBlock(s.c), NULL, TakenBlock(s.c), NULL, tb, x);
    }
    assert Filled(t.blocks, t.ring, t.t, true) by {
      FilledAfterInsert(s.blocks, s.ring, s.t, tb, nb, x);
    }
    assert AllLinked(t.blocks, t.ring, NULL) by {
      LinkedAfterInsert(|s.blocks|, s.ring, s.t, nb);
    }
    assert Q(t) == Q(s) by {
      LinkTailQueue(s, t, tb, nb);
    }
    BecomesPending(s, t, tb, x, v, nb);
  }

  /** The producer has filled the block after the tail block and only the `tailBlock` store is left. */
  lemma BecomesPending<T>(s: State<T>, t: State<T>, b: int, x: Block<T>, v: T, nb: int)
    requires Inv(s) && TailFull(s) && Valid(s, b)
    requires b == s.tailBlock || IsSpare(s, b)
    requires t.blocks == s.blocks[b := x]
    requires b == s.tailBlock ==> x == s.blocks[b].(next := nb)
    requires t.p == PPublish(v, nb) && t.c == s.c && t.saw == s.saw && t.max == s.max && t.largest == s.largest
    requires t.frontBlock == s.frontBlock && t.tailBlock == s.tailBlock && t.t == s.t
    requires RingOk(t.blocks, t.ring, t.t, t.frontBlock, t.tailBlock)
    requires BlocksOk(t.blocks, TakenBlock(s.c), NULL)
    requires Filled(t.blocks, t.ring, t.t, true)
    requires AllLinked(t.blocks, t.ring, NULL)
    requires forall i | 0 <= i <= s.t :: t.ring[i] == s.ring[i]
    requires IsSpare(t, nb) && t.blocks[nb].q == [v]
    ensures Inv(t)
  {
    assert b != s.tailBlock ==> forall i | 0 <= i <= s.t :: s.ring[i] != b;
    ProducerAssemble(s, t);
  }

  lemma LinkTailQueue<T>(s: State<T>, t: State<T>, tb: int, nb: int)
    requires RingOk(s.blocks, s.ring, s.t, s.frontBlock, s.tailBlock)
    requires Valid(s, tb) && 0 <= nb && nb !in s.ring
    requires t.blocks == s.blocks[tb := s.blocks[tb].(next := nb)] && t.t == s.t
    requires t.ring == Inserted(s.ring, s.t, nb)
    ensures Q(t) == Q(s)
  {
    assert t.ring[..t.t + 1] == s.ring[..s.t + 1];
    assert forall i | 0 <= i <= s.t :: s.ring[i] in s.ring;
    SameQueue(s, t, nb);
  }

  lemma ProducerPublish<T>(s: State<T>, t: State<T>, v: T, nb: int)
    requires Inv(s) && s.p == PPublish(v, nb)
    requires t == ProducerStep(s, v, true, true)
    ensures Inv(t) && Q(t) == Q(s) + [v]
  {
    RingAfterPublish(s.blocks, s.ring, s.t, s.frontBlock, s.tailBlock, nb);
    assert Filled(s.blocks, s.ring, s.t, true);
    FilledAfterPublish(s.blocks, s.ring, s.t);
    assert ProducerFrame(s, t);
    ProducerAssemble(s, t);
    PublishQueue(s, t);
  }

  lemma RingAfterPublish<T>(blocks: seq<Block<T>>, ring: seq<nat>, t: nat, frontBlock: int, tailBlock: int, nb: int)
    requires RingOk(blocks, ring, t, frontBlock, tailBlock) && t + 1 < |ring| && nb == ring[t + 1]
    ensures RingOk(blocks, ring, t + 1, frontBlock, nb)
  {
  }

  lemma FilledAfterPublish<T>(blocks: seq<Block<T>>, ring: seq<nat>, t: nat)
    requires forall i | 0 <= i < |ring| :: ring[i] < |blocks|
    requires t + 1 < |ring| && Filled(blocks, ring, t, true) && blocks[ring[t + 1]].q != []
    requires t > 0 ==> Full(blocks[ring[t]])
    ensures Filled(blocks, ring, t + 1, false)
  {
  }

  /** The `tailBlock` store adds the block after the tail block to the queue. */
  lemma PublishQueue<T>(s: State<T>, t: State<T>)
    requires s.t + 1 < |s.ring| && s.ring[s.t + 1] < |s.blocks|
    requires t.blocks == s.blocks && t.ring == s.ring && t.t == s.t + 1
    ensures Q(t) == Q(s) + s.blocks[s.ring[s.t + 1]].q
  {
    AtTail(t.blocks, t.ring, t.t);
  }

  // ---------------------------------------------------------------- consumer

  /** The parts of the invariant put together again after a consumer step. */
  lemma ConsumerAssemble<T>(s: State<T>, t: State<T>)
    requires Inv(s)
    requires RingOk(t.blocks, t.ring, t.t, t.frontBlock, t.tailBlock)
    requires BlocksOk(t.blocks, TakenBlock(t.c), BuiltBlock(s.p))
    requires Filled(t.blocks, t.ring, t.t, s.p.PPublish?)
    requires AllLinked(t.blocks, t.ring, PrivateBlock(s.p))
    requires t.max == s.max && t.largest == s.largest
    requires ConsumerInv(t)
    requires ConsumerFrame(s, t)
    ensures Inv(t)
  {
    ProducerInvKept(s, t);
  }

  lemma ConsumerQuiet<T>(s: State<T>, c: Consumer<T>, saw: bool)
    requires Inv(s) && TakenBlock(s.c) == TakenBlock(c)
    requires ConsumerInv(s.(c := c, saw := saw))
    ensures Inv(s.(c := c, saw := saw)) && Q(s.(c := c, saw := saw)) == Q(s)
  {
    ConsumerAssemble(s, s.(c := c, saw := saw));
  }

  /** A consumer step that changes one linked block but not its element list, its link or the producer's fields. */
  lemma ConsumerTouch<T>(s: State<T>, t: State<T>, b: int, x: Block<T>)
    requires Inv(s) && (b == s.frontBlock || (s.t > 0 && b == s.ring[1]))
    requires t.blocks == s.blocks[b := x] && t.ring == s.ring && t.t == s.t
    requires t.frontBlock == s.frontBlock && t.tailBlock == s.tailBlock && t.max == s.max && t.largest == s.largest
    requires t.p == s.p && t.seen == s.seen
    requires x == s.blocks[b].(localTail := x.localTail, data := x.data) && |x.data| == |s.blocks[b].data|
    requires s.blocks[b].tail < |x.data| ==> x.data[s.blocks[b].tail] == s.blocks[b].data[s.blocks[b].tail]
    requires BlockOk(x, b == TakenBlock(t.c), b == BuiltBlock(s.p))
    requires TakenBlock(s.c) == TakenBlock(t.c) || (TakenBlock(s.c) == NULL && TakenBlock(t.c) == b)
    requires RingOk(t.blocks, t.ring, t.t, t.frontBlock, t.tailBlock) ==> ConsumerInv(t)
    ensures Inv(t)
  {
    PutRing(s.blocks, s.ring, s.t, s.frontBlock, s.tailBlock, b, x);
    PutFilled(s.blocks, s.ring, s.t, s.p.PPublish?, b, x);
    assert BlocksOk(t.blocks, TakenBlock(t.c), BuiltBlock(s.p)) by {
      PutBlocks(s.blocks, TakenBlock(s.c), BuiltBlock(s.p), TakenBlock(t.c), BuiltBlock(s.p), b, x);
    }
    FrameOfTouch(s, t, b, x);
    ConsumerAssemble(s, t);
  }

  /** A consumer step on a block at or next to the front leaves alone what the producer knows. */
  lemma FrameOfTouch<T>(s: State<T>, t: State<T>, b: int, x: Block<T>)
    requires RingOk(s.blocks, s.ring, s.t, s.frontBlock, s.tailBlock)
    requires RingOk(t.blocks, t.ring, t.t, t.frontBlock, t.tailBlock)
    requires AllLinked(s.blocks, s.ring, PrivateBlock(s.p))
    requires b == s.frontBlock || (s.t > 0 && b == s.ring[1])
    requires t.blocks == s.blocks[b := x] && t.ring == s.ring && t.t == s.t
    requires t.tailBlock == s.tailBlock && t.p == s.p && t.seen == s.seen
    requires x.size == s.blocks[b].size && x.tail == s.blocks[b].tail && x.localFront == s.blocks[b].localFront
    requires |x.data| == |s.blocks[b].data|
    requires x.tail < |x.data| ==> x.data[x.tail] == s.blocks[b].data[x.tail]
    requires b != s.frontBlock ==> x.q == s.blocks[b].q
    ensures ConsumerFrame(s, t)
  {
    assert b in s.ring;
    assert b != PrivateBlock(s.p);
    assert s.t + 1 < |s.ring| ==> s.ring[s.t + 1] != b;
    assert t.t > 0 && b == s.frontBlock ==> b != s.tailBlock;
  }

  lemma PutQueue<T>(s: State<T>, t: State<T>, b: int, x: Block<T>)
    requires RingOk(s.blocks, s.ring, s.t, s.frontBlock, s.tailBlock) && Valid(s, b)
    requires t.blocks == s.blocks[b := x] && t.ring == s.ring && t.t == s.t && x.q == s.blocks[b].q
    ensures Q(t) == Q(s)
  {
    ContentsSame(s.blocks, t.blocks, s.ring[..s.t + 1]);
  }

  /** Refreshing the cached tail finds an element, or finds the block empty. */
  lemma TailSeen<T>(s: State<T>)
    requires Inv(s)
    ensures var b := s.blocks[s.frontBlock];
            && (b.front == b.tail <==> b.q == [])
            && (b.q == [] && s.t == 0 ==> Q(s) == [])
  {
    AtFront(s.blocks, s.ring, s.t);
  }

  lemma ConsumerLoadTail<T>(s: State<T>, t: State<T>, op: Op, fb: int, bf: nat)
    requires Inv(s) && s.c == CLoadTail(op, fb, bf)
    requires t == ConsumerStep(s, op)
    ensures Inv(t) && Q(t) == Q(s)
  {
    var b := s.blocks[fb];
    RefreshLocalTail(b, false, fb == BuiltBlock(s.p));
    TailSeen(s);
    ConsumerTouch(s, t, fb, b.(localTail := b.tail));
    PutQueue(s, t, fb, b.(localTail := b.tail));
  }

  lemma ConsumerAgainTail<T>(s: State<T>, t: State<T>, op: Op, fb: int)
    requires Inv(s) && s.c == CAgainTail(op, fb)
    requires t == ConsumerStep(s, op)
    ensures Inv(t) && Q(t) == Q(s)
  {
    var b := s.blocks[fb];
    RefreshLocalTail(b, false, fb == BuiltBlock(s.p));
    ConsumerTouch(s, t, fb, b.(localTail := b.tail));
    PutQueue(s, t, fb, b.(localTail := b.tail));
  }

  lemma ConsumerAgainFront<T>(s: State<T>, t: State<T>, op: Op, fb: int, bt: nat)
    requires Inv(s) && s.c == CAgainFront(op, fb, bt)
    requires t == ConsumerStep(s, op)
    ensures Inv(t) && Q(t) == Q(s)
  {
    TailSeen(s);
    ConsumerQuiet(s, t.c, t.saw);
  }

  lemma ConsumerNextTail<T>(s: State<T>, t: State<T>, op: Op, nb: int, nf: nat)
    requires Inv(s) && s.c == CNextTail(op, nb, nf) && !op.Look?
    requires ConsumerSafe(s) && t == ConsumerStep(s, op)
    ensures Inv(t) && Q(t) == Q(s)
  {
    var b := s.blocks[nb];
    RefreshLocalTail(b, false, nb == BuiltBlock(s.p));
    ConsumerTouch(s, t, nb, b.(localTail := b.tail));
    PutQueue(s, t, nb, b.(localTail := b.tail));
  }

  /** Moving on from the empty front block. */
  lemma ConsumerAdvance<T>(s: State<T>, t: State<T>, op: Op, nb: int, nf: nat)
    requires Inv(s) && s.c == CAdvance(op, nb, nf)
    requires t == ConsumerStep(s, op)
    ensures Inv(t) && Q(t) == Q(s)
  {
    RotateRing(s.blocks, s.ring, s.t, s.frontBlock, s.tailBlock);
    AfterAdvance(s, t, op, nb, nf);
    RotateQueue(s, t);
  }

  lemma AfterAdvance<T>(s: State<T>, t: State<T>, op: Op, nb: int, nf: nat)
    requires Inv(s) && s.c == CAdvance(op, nb, nf) && s.t > 0
    requires t == s.(frontBlock := nb, c := CTake(op, nb, nf), t := s.t - 1, ring := Rotated(s.ring))
    requires RingOk(t.blocks, t.ring, t.t, t.frontBlock, t.tailBlock)
    ensures Inv(t)
  {
    RotatedParts(s);
    FrameOfAdvance(s, t);
    ConsumerAssemble(s, t);
  }

  lemma RotatedParts<T>(s: State<T>)
    requires Inv(s) && s.t > 0 && s.blocks[s.frontBlock].q == []
    ensures forall i | 0 <= i < |s.ring| :: Rotated(s.ring)[i] < |s.blocks|
    ensures Filled(s.blocks, Rotated(s.ring), s.t - 1, s.p.PPublish?)
    ensures AllLinked(s.blocks, Rotated(s.ring), PrivateBlock(s.p))
  {
    assert s.p.PPublish? ==> s.t + 1 < |s.ring|;
    RotateFilled(s.blocks, s.ring, s.t, s.p.PPublish?);
    RotateLinked(s.blocks, s.ring, PrivateBlock(s.p));
  }

  lemma FrameOfAdvance<T>(s: State<T>, t: State<T>)
    requires RingOk(s.blocks, s.ring, s.t, s.frontBlock, s.tailBlock) && s.t > 0
    requires RingOk(t.blocks, t.ring, t.t, t.frontBlock, t.tailBlock)
    requires t.blocks == s.blocks && t.ring == Rotated(s.ring) && t.t == s.t - 1
    requires t.tailBlock == s.tailBlock && t.p == s.p && t.seen == s.seen
    ensures ConsumerFrame(s, t)
  {
  }

  /** Leaving an empty front block behind loses nothing. */
  lemma RotateQueue<T>(s: State<T>, t: State<T>)
    requires 0 < s.t < |s.ring| && s.ring[0] < |s.blocks| && s.blocks[s.ring[0]].q == []
    requires t.blocks == s.blocks && t.ring == Rotated(s.ring) && t.t == s.t - 1
    ensures Q(t) == Q(s)
  {
    AtFront(s.blocks, s.ring, s.t);
    RotatedPrefix(s.ring, s.t);
    calc {
      Q(s);
      [] + Contents(s.blocks, s.ring[1..s.t + 1]);
      Contents(s.blocks, s.ring[1..s.t + 1]);
      Q(t);
    }
  }

  lemma RotatedPrefix(ring: seq<nat>, t: nat)
    requires 0 < t < |ring|
    ensures ring[1..t + 1] == Rotated(ring)[..t]
  {
  }

  lemma RotateRing<T>(blocks: seq<Block<T>>, ring: seq<nat>, t: nat, frontBlock: int, tailBlock: int)
    requires RingOk(blocks, ring, t, frontBlock, tailBlock) && t > 0
    ensures RingOk(blocks, Rotated(ring), t - 1, ring[1], tailBlock)
  {
    var r, n := Rotated(ring), |ring|;
    assert forall i, j | 0 <= i < j < n :: Next(n, i) != Next(n, j);
    forall i | 0 <= i < n
      ensures LinkAt(blocks, r, i)
    {
      assert LinkAt(blocks, ring, Next(n, i));
    }
  }

  lemma RotateFilled<T>(blocks: seq<Block<T>>, ring: seq<nat>, t: nat, pending: bool)
    requires forall i | 0 <= i < |ring| :: ring[i] < |blocks|
    requires 0 < t < |ring| && blocks[ring[0]].q == []
    requires pending ==> t + 1 < |ring|
    requires Filled(blocks, ring, t, pending)
    ensures Filled(blocks, Rotated(ring), t - 1, pending)
  {
    var r, n := Rotated(ring), |ring|;
    forall i | 0 <= i < n
      ensures 0 < i < t - 1 ==> Full(blocks[r[i]])
      ensures 0 < i == t - 1 ==> blocks[r[i]].q != []
      ensures t - 1 < i && !(pending && i == t) ==> blocks[r[i]].q == []
    {
      assert r[i] == ring[Next(n, i)];
    }
  }

  lemma RotateLinked<T>(blocks: seq<Block<T>>, ring: seq<nat>, private: int)
    requires ring != [] && AllLinked(blocks, ring, private)
    ensures AllLinked(blocks, Rotated(ring), private)
  {
    var r, n := Rotated(ring), |ring|;
    forall b | 0 <= b < |blocks|
      ensures b in r || b == private
    {
      if b != private {
        assert b in ring;
        var i :| 0 <= i < n && ring[i] == b;
        assert r[if i == 0 then n - 1 else i - 1] == b;
      }
    }
  }

  lemma ConsumerTake<T>(s: State<T>, t: State<T>, op: Op, b: int, f: nat)
    requires Inv(s) && s.c == CTake(op, b, f) && !op.Look?
    requires ConsumerSafe(s) && t == ConsumerStep(s, op)
    ensures Inv(t) && Q(t) == Q(s)
  {
    var x := s.blocks[b];
    HeadIsLive(x, b == BuiltBlock(s.p));
    var c: Cell<T> := if op.Dequeue? then Moved else Raw;
    TakeFromBlock(x, false, b == BuiltBlock(s.p), c);
    ConsumerTouch(s, t, b, x.(data := x.data[f := c]));
    PutQueue(s, t, b, x.(data := x.data[f := c]));
  }

  lemma ConsumerDestroy<T>(s: State<T>, t: State<T>, op: Op, b: int, f: nat, v: T)
    requires Inv(s) && s.c == CDestroy(b, f, v)
    requires ConsumerSafe(s) && t == ConsumerStep(s, op)
    ensures Inv(t) && Q(t) == Q(s)
  {
    var x := s.blocks[b];
    TakeFromBlock(x, true, b == BuiltBlock(s.p), Raw);
    ConsumerTouch(s, t, b, x.(data := x.data[f := Raw]));
    PutQueue(s, t, b, x.(data := x.data[f := Raw]));
  }

  /** Removing the head of the front block removes the head of the queue. */
  lemma ShrinkQueue<T>(s: State<T>, t: State<T>, x: Block<T>)
    requires RingOk(s.blocks, s.ring, s.t, s.frontBlock, s.tailBlock)
    requires s.blocks[s.frontBlock].q != [] && x.q == s.blocks[s.frontBlock].q[1..]
    requires t.blocks == s.blocks[s.frontBlock := x] && t.ring == s.ring && t.t == s.t
    ensures Q(s) != [] && Q(s)[0] == s.blocks[s.frontBlock].q[0] && Q(t) == Q(s)[1..]
  {
    AtFront(s.blocks, s.ring, s.t);
    AtFront(t.blocks, t.ring, t.t);
    var after := s.ring[1..s.t + 1];
    forall i | 0 <= i < |after|
      ensures after[i] < |s.blocks| && s.blocks[after[i]].q == t.blocks[after[i]].q
    {
      assert after[i] == s.ring[i + 1] && s.ring[0] != s.ring[i + 1];
    }
    ContentsSame(s.blocks, t.blocks, after);
  }

  lemma ShrinkFilled<T>(blocks: seq<Block<T>>, ring: seq<nat>, t: nat, pending: bool, x: Block<T>)
    requires forall i | 0 <= i < |ring| :: ring[i] < |blocks|
    requires forall i, j | 0 <= i < j < |ring| :: ring[i] != ring[j]
    requires t < |ring| && Filled(blocks, ring, t, pending)
    ensures Filled(blocks[ring[0] := x], ring, t, pending)
  {
  }

  lemma ConsumerStoreFront<T>(s: State<T>, t: State<T>, op: Op, b: int, f: nat, v: T)
    requires Inv(s) && s.c == CStoreFront(b, f, v)
    requires t == ConsumerStep(s, op)
    ensures Inv(t) && Q(s) != [] && Q(s)[0] == v && Q(t) == Q(s)[1..]
  {
    var y := s.blocks[b];
    var x := y.(front := Next(y.size, f), q := y.q[1..]);
    AdvanceInBlock(y, b == BuiltBlock(s.p));
    assert t.blocks == s.blocks[b := x];
    PutRing(s.blocks, s.ring, s.t, s.frontBlock, s.tailBlock, b, x);
    assert BlocksOk(t.blocks, NULL, BuiltBlock(s.p)) by {
      PutBlocks(s.blocks, b, BuiltBlock(s.p), NULL, BuiltBlock(s.p), b, x);
    }
    ShrinkFilled(s.blocks, s.ring, s.t, s.p.PPublish?, x);
    assert Q(s) != [] && Q(s)[0] == v && Q(t) == Q(s)[1..] by {
      ShrinkQueue(s, t, x);
    }
    FrameOfTouch(s, t, b, x);
    ConsumerAssemble(s, t);
  }

  /** `peek` in the front block sees the head of the queue. */
  lemma PeekFront<T>(s: State<T>, b: int, f: nat)
    requires Inv(s) && AtHead(s, b, f) && TakenBlock(s.c) == NULL
    ensures f < |s.blocks[b].data| && s.blocks[b].data[f].Live?
    ensures Q(s) != [] && Q(s)[0] == s.blocks[b].data[f].value
  {
    HeadIsLive(s.blocks[b], b == BuiltBlock(s.p));
    AtFront(s.blocks, s.ring, s.t);
  }

  /** `peek` in the block after an empty front block sees the head of the queue. */
  lemma PeekNext<T>(s: State<T>, nb: int)
    requires Inv(s) && s.t > 0 && nb == s.ring[1] && s.blocks[s.frontBlock].q == [] && TakenBlock(s.c) == NULL
    ensures var x := s.blocks[nb];
            && x.front < |x.data| && x.data[x.front].Live?
            && Q(s) != [] && Q(s)[0] == x.data[x.front].value
  {
    var x := s.blocks[nb];
    assert x.q != [];
    Circular.Take(x.data, x.front, x.q, false, nb == BuiltBlock(s.p), Moved);
    AtFront(s.blocks, s.ring, s.t);
    assert s.ring[1..s.t + 1][0] == nb;
    assert Contents(s.blocks, s.ring[1..s.t + 1]) == x.q + Contents(s.blocks, s.ring[1..s.t + 1][1..]);
  }

  // ---------------------------------------------------------------- steps that touch nothing shared, together

  lemma ProducerQuietStep<T>(s: State<T>, t: State<T>, v: T, alloc: bool)
    requires Inv(s) && ProducerSafe(s) && t == ProducerStep(s, v, alloc, false)
    requires s.p.PIdle? || s.p.PLoadTail? || s.p.PCompare? || s.p.PAlloc?
    ensures Inv(t) && Q(t) == Q(s)
  {
    if s.p.PLoadTail? {
      ProducerLoadTail(s, t, v, alloc);
    } else if s.p.PCompare? {
      ProducerCompare(s, t, v, alloc);
    } else {
      ProducerQuiet(s, t.p);
    }
  }

  lemma ProducerLoadTail<T>(s: State<T>, t: State<T>, v: T, alloc: bool)
    requires Inv(s) && ProducerSafe(s) && t == ProducerStep(s, v, alloc, false) && s.p.PLoadTail?
    ensures Inv(t) && Q(t) == Q(s)
  {
    ProducerQuiet(s, t.p);
  }

  /** The block ahead is free only if it is not the front block, and then it is another block of the ring. */
  lemma ProducerCompare<T>(s: State<T>, t: State<T>, v: T, alloc: bool)
    requires Inv(s) && ProducerSafe(s) && t == ProducerStep(s, v, alloc, false) && s.p.PCompare?
    ensures Inv(t) && Q(t) == Q(s)
  {
    ProducerQuiet(s, t.p);
  }

  lemma ProducerLoadNext<T>(s: State<T>, t: State<T>, v: T, alloc: bool)
    requires Inv(s) && ProducerSafe(s) && t == ProducerStep(s, v, alloc, false)
    requires s.p.PLoadNext? || s.p.PReuse?
    ensures Inv(t) && Q(t) == Q(s)
  {
    NextOfTail(s);
    ProducerQuiet(s, t.p);
  }

  lemma NextOfTail<T>(s: State<T>)
    requires Inv(s)
    ensures s.blocks[s.tailBlock].next == s.ring[Next(|s.ring|, s.t)]
  {
    assert LinkAt(s.blocks, s.ring, s.t);
  }

  lemma ConsumerQuietStep<T>(s: State<T>, t: State<T>, op: Op)
    requires Inv(s) && ConsumerSafe(s) && t == ConsumerStep(s, op)
    requires s.c.CIdle? || s.c.CLoadFront? || s.c.CLoadTailBlock? || s.c.CAgainBlock? || s.c.CLoadNext? || s.c.CNextFront?
    ensures Inv(t) && Q(t) == Q(s)
  {
    assert LinkAt(s.blocks, s.ring, 0);
    ConsumerQuiet(s, t.c, t.saw);
  }

  lemma ConsumerPeekStep<T>(s: State<T>, t: State<T>, op: Op)
    requires Inv(s) && ConsumerSafe(s) && t == ConsumerStep(s, op)
    requires (s.c.CTake? || s.c.CNextTail?) && s.c.op.Look?
    ensures Inv(t) && Q(t) == Q(s)
    ensures ConsumerEvent(s).Peek? && Q(s) != [] && Q(s)[0] == ConsumerEvent(s).v
  {
    if s.c.CTake? {
      PeekFront(s, s.c.b, s.c.f);
    } else {
      PeekNext(s, s.c.nb);
    }
    ConsumerQuiet(s, t.c, t.saw);
  }
}
