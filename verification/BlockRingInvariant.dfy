/** The inductive invariant of the block ring and the proof that every step of either thread keeps it. */
module BlockRingInvariant {
  import opened Circular
  import opened BlockRing
  import Fifo

  /** The block at place i links to the block at the next place round the ring. */
  predicate LinkAt<T>(blocks: seq<Block<T>>, ring: seq<nat>, i: nat)
    requires i < |ring| && ring[i] < |blocks|
  {
    blocks[ring[i]].next == ring[Next(|ring|, i)]
  }

  /** `ring` lists distinct blocks in `next` order; it starts at the front block and has the tail block at t. */
  predicate RingOk<T>(blocks: seq<Block<T>>, ring: seq<nat>, t: nat, frontBlock: int, tailBlock: int) {
    && t < |ring|
    && (forall i | 0 <= i < |ring| :: ring[i] < |blocks|)
    && (forall i, j | 0 <= i < j < |ring| :: ring[i] != ring[j])
    && (forall i | 0 <= i < |ring| :: LinkAt(blocks, ring, i))
    && frontBlock == ring[0] && tailBlock == ring[t]
  }

  /**
   A block's indices are in range, its slots hold exactly q, and in walking order the four indices come
   as localFront, front, localTail, tail within one lap: the caches are conservative.
   */
  predicate BlockOk<T(==)>(b: Block<T>, taken: bool, built: bool) {
    && b.size >= 2 && |b.data| == b.size
    && b.front < b.size && b.tail < b.size && b.localFront < b.size && b.localTail < b.size
    && Dist(b.size, b.localFront, b.front) + Dist(b.size, b.front, b.localTail)
       + Dist(b.size, b.localTail, b.tail) < b.size
    && |b.q| == Dist(b.size, b.front, b.tail)
    && Holds(b.data, b.front, b.q, taken, built)
  }

  predicate BlocksOk<T(==)>(blocks: seq<Block<T>>, taken: int, built: int) {
    forall i | 0 <= i < |blocks| :: BlockOk(blocks[i], i == taken, i == built)
  }

  predicate Full<T>(b: Block<T>) {
    |b.q| + 1 == b.size
  }

  /**
   Blocks after the front block up to the tail block are non-empty and all but the last of them are
   full; every other linked block is empty, except one that the producer has filled but not published.
   */
  predicate Filled<T(==)>(blocks: seq<Block<T>>, ring: seq<nat>, t: nat, pending: bool)
    requires forall i | 0 <= i < |ring| :: ring[i] < |blocks|
  {
    forall i | 0 <= i < |ring| ::
      && (0 < i < t ==> Full(blocks[ring[i]]))
      && (0 < i == t ==> blocks[ring[i]].q != [])
      && (t < i && !(pending && i == t + 1) ==> blocks[ring[i]].q == [])
  }

  /** The block whose head slot the consumer has emptied but not yet given up. */
  function TakenBlock<T>(c: Consumer<T>): int {
    match c
    case CDestroy(b, _, _) => b
    case CStoreFront(b, _, _) => b
    case _ => NULL
  }

  /** The block in which the producer has constructed an element it has not yet made part of the block. */
  function BuiltBlock<T>(p: Producer<T>): int {
    match p
    case PStoreTail(_, tb, _) => tb
    case PReuseStore(_, nb, _) => nb
    case _ => NULL
  }

  /** The block the producer has allocated and not yet linked. */
  function PrivateBlock<T>(p: Producer<T>): int {
    match p
    case PInit(_, _, nb) => nb
    case PLinkNew(_, _, nb) => nb
    case PLinkTail(_, _, nb) => nb
    case _ => NULL
  }

  /** Every block is linked, except the one still private to the producer, which is the newest. */
  predicate AllLinked<T>(blocks: seq<Block<T>>, ring: seq<nat>, private: int) {
    && (forall b | 0 <= b < |blocks| :: b in ring || b == private)
    && private !in ring
    && (private != NULL ==> private == |blocks| - 1)
  }

  /** Either the consumer is in the tail block, or the tail block is full. */
  predicate TailFull<T>(s: State<T>)
    requires s.t < |s.ring| && s.ring[s.t] < |s.blocks|
  {
    s.t > 0 ==> Full(s.blocks[s.ring[s.t]])
  }

  /** nb is the linked block after the tail block, and it is not the front block. */
  predicate IsSpare<T>(s: State<T>, nb: int) {
    s.t + 1 < |s.ring| && nb == s.ring[s.t + 1]
  }

  predicate ProducerInv<T(==)>(s: State<T>)
    requires RingOk(s.blocks, s.ring, s.t, s.frontBlock, s.tailBlock)
  {
    match s.p
    case PIdle => true
    case PLoadTail(_, _, tb) => tb == s.tailBlock
    case PLoadFront(_, _, tb, bt) => tb == s.tailBlock && bt == s.blocks[tb].tail && bt < s.blocks[tb].size
    case PConstruct(_, tb, bt) =>
      && tb == s.tailBlock && bt == s.blocks[tb].tail && bt < s.blocks[tb].size
      && Next(s.blocks[tb].size, bt) != s.blocks[tb].localFront
    case PStoreTail(v, tb, bt) =>
      && tb == s.tailBlock && bt == s.blocks[tb].tail && bt < s.blocks[tb].size
      && Next(s.blocks[tb].size, bt) != s.blocks[tb].localFront
      && bt < |s.blocks[tb].data| && s.blocks[tb].data[bt] == Live(v)
    case PLoadNext(_, _, tb) => tb == s.tailBlock && TailFull(s) && s.seen + 1 >= s.blocks[tb].size
    case PCompare(_, _, tb, nx) =>
      && tb == s.tailBlock && TailFull(s) && s.seen + 1 >= s.blocks[tb].size
      && nx == s.ring[Next(|s.ring|, s.t)]
    case PReuse(_, tb) => tb == s.tailBlock && TailFull(s) && s.t + 1 < |s.ring|
    case PReuseFront(_, nb) => TailFull(s) && IsSpare(s, nb)
    case PReuseTail(_, nb, nf) =>
      TailFull(s) && IsSpare(s, nb) && nf == s.blocks[nb].front == s.blocks[nb].localFront
    case PReuseConstruct(_, nb, nt) =>
      && TailFull(s) && IsSpare(s, nb)
      && nt == s.blocks[nb].front == s.blocks[nb].localFront && nt == s.blocks[nb].tail
    case PReuseStore(v, nb, nt) =>
      && TailFull(s) && IsSpare(s, nb)
      && nt == s.blocks[nb].front == s.blocks[nb].localFront && nt == s.blocks[nb].tail
      && nt < |s.blocks[nb].data| && s.blocks[nb].data[nt] == Live(v)
    case PAlloc(_, tb) => tb == s.tailBlock && TailFull(s)
    case PInit(_, tb, nb) =>
      && tb == s.tailBlock && TailFull(s) && Valid(s, nb)
      && s.blocks[nb] == FreshBlock(s.blocks[nb].size)
    case PLinkNew(v, tb, nb) =>
      && tb == s.tailBlock && TailFull(s) && Valid(s, nb) && s.blocks[nb].q == [v]
    case PLinkTail(v, tb, nb) =>
      && tb == s.tailBlock && TailFull(s) && Valid(s, nb) && s.blocks[nb].q == [v]
      && s.blocks[nb].next == s.ring[Next(|s.ring|, s.t)]
    case PPublish(v, nb) => TailFull(s) && IsSpare(s, nb) && s.blocks[nb].q == [v]
  }

  /** The consumer stands in the front block, whose head is slot f, and the block is known to be non-empty. */
  predicate AtHead<T>(s: State<T>, b: int, f: nat)
    requires RingOk(s.blocks, s.ring, s.t, s.frontBlock, s.tailBlock)
  {
    b == s.frontBlock && f == s.blocks[b].front && f < s.blocks[b].size && f != s.blocks[b].localTail
  }

  predicate ConsumerInv<T(==)>(s: State<T>)
    requires RingOk(s.blocks, s.ring, s.t, s.frontBlock, s.tailBlock)
  {
    match s.c
    case CIdle => true
    case CLoadFront(_, fb) => fb == s.frontBlock
    case CLoadTail(_, fb, bf) => fb == s.frontBlock && bf == s.blocks[fb].front
    case CLoadTailBlock(_, fb) => fb == s.frontBlock && (s.saw || s.t > 0)
    case CAgainBlock(_) => s.t > 0
    case CAgainTail(_, fb) => s.t > 0 && fb == s.frontBlock
    case CAgainFront(_, fb, bt) =>
      s.t > 0 && fb == s.frontBlock && bt == s.blocks[fb].tail && bt == s.blocks[fb].localTail
    case CLoadNext(_, fb) => s.t > 0 && fb == s.frontBlock && s.blocks[fb].q == []
    case CNextFront(_, nb) => s.t > 0 && nb == s.ring[1] && s.blocks[s.frontBlock].q == []
    case CNextTail(_, nb, nf) =>
      s.t > 0 && nb == s.ring[1] && s.blocks[s.frontBlock].q == [] && nf == s.blocks[nb].front
    case CAdvance(op, nb, nf) =>
      && s.t > 0 && nb == s.ring[1] && s.blocks[s.frontBlock].q == []
      && nf == s.blocks[nb].front && nf != s.blocks[nb].localTail && !op.Look?
    case CTake(_, b, f) => AtHead(s, b, f)
    case CDestroy(b, f, v) =>
      && AtHead(s, b, f) && f < |s.blocks[b].data| && s.blocks[b].data[f] == Moved
      && s.blocks[b].q != [] && v == s.blocks[b].q[0]
    case CStoreFront(b, f, v) =>
      && AtHead(s, b, f) && f < |s.blocks[b].data| && s.blocks[b].data[f] == Raw
      && s.blocks[b].q != [] && v == s.blocks[b].q[0]
  }

  /** The inductive invariant. (Compared with `true` so that the verifier keeps it whole where it is only passed on.) */
  predicate Inv<T(==)>(s: State<T>) {
    InvParts(s) == true
  }

  predicate InvParts<T(==)>(s: State<T>) {
    && RingOk(s.blocks, s.ring, s.t, s.frontBlock, s.tailBlock)
    && BlocksOk(s.blocks, TakenBlock(s.c), BuiltBlock(s.p))
    && Filled(s.blocks, s.ring, s.t, s.p.PPublish?)
    && AllLinked(s.blocks, s.ring, PrivateBlock(s.p))
    && s.max >= 2 && s.largest >= 1
    && ProducerInv(s)
    && ConsumerInv(s)
  }

  // ---------------------------------------------------------------- contents

  lemma {:induction false} ContentsConcat<T>(blocks: seq<Block<T>>, a: seq<nat>, b: seq<nat>)
    ensures Contents(blocks, a + b) == Contents(blocks, a) + Contents(blocks, b)
  {
    if a == [] {
      assert a + b == b;
    } else {
      assert (a + b)[1..] == a[1..] + b;
      ContentsConcat(blocks, a[1..], b);
    }
  }

  /** Blocks that look the same to the list hold the same. */
  lemma {:induction false} ContentsSame<T>(xs: seq<Block<T>>, ys: seq<Block<T>>, ids: seq<nat>)
    requires forall i | 0 <= i < |ids| :: ids[i] < |xs| && ids[i] < |ys| && xs[ids[i]].q == ys[ids[i]].q
    ensures Contents(xs, ids) == Contents(ys, ids)
  {
    if ids == [] {
    } else {
      assert ids[0] < |xs|;
      forall i | 0 <= i < |ids[1..]|
        ensures ids[1..][i] < |xs| && ids[1..][i] < |ys| && xs[ids[1..][i]].q == ys[ids[1..][i]].q
      {
        assert ids[1..][i] == ids[i + 1];
      }
      ContentsSame(xs, ys, ids[1..]);
    }
  }

  lemma ContentsOne<T>(blocks: seq<Block<T>>, id: nat)
    requires id < |blocks|
    ensures Contents(blocks, [id]) == blocks[id].q
  {
    assert [id][1..] == [];
  }

  /** The contents seen from the tail: everything before the tail block, then the tail block. */
  lemma AtTail<T>(blocks: seq<Block<T>>, ring: seq<nat>, t: nat)
    requires t < |ring| && ring[t] < |blocks|
    ensures Contents(blocks, ring[..t + 1]) == Contents(blocks, ring[..t]) + blocks[ring[t]].q
  {
    ContentsConcat(blocks, ring[..t], [ring[t]]);
    ContentsOne(blocks, ring[t]);
    assert ring[..t + 1] == ring[..t] + [ring[t]];
  }

  /** The contents seen from the front: the front block, then everything after it. */
  lemma AtFront<T>(blocks: seq<Block<T>>, ring: seq<nat>, t: nat)
    requires t < |ring| && ring[0] < |blocks|
    ensures Contents(blocks, ring[..t + 1]) == blocks[ring[0]].q + Contents(blocks, ring[1..t + 1])
  {
    assert ring[..t + 1][1..] == ring[1..t + 1];
  }

  // ---------------------------------------------------------------- one block

  lemma RefreshLocalFront<T>(b: Block<T>, taken: bool, built: bool)
    requires BlockOk(b, taken, built)
    ensures BlockOk(b.(localFront := b.front), taken, built)
  {
  }

  lemma RefreshLocalTail<T>(b: Block<T>, taken: bool, built: bool)
    requires BlockOk(b, taken, built)
    ensures BlockOk(b.(localTail := b.tail), taken, built)
  {
  }

  /** A cached index that still shows room shows a raw slot at the tail. */
  lemma BuildInBlock<T>(b: Block<T>, taken: bool, v: T)
    requires BlockOk(b, taken, false)
    ensures b.tail < |b.data| && b.data[b.tail] == Raw
    ensures BlockOk(b.(data := b.data[b.tail := Live(v)]), taken, true)
  {
    Construct(b.data, b.front, b.q, taken, b.tail, v);
  }

  lemma PublishInBlock<T>(b: Block<T>, taken: bool, v: T)
    requires BlockOk(b, taken, true) && b.data[b.tail] == Live(v)
    requires Next(b.size, b.tail) != b.localFront
    requires taken ==> b.q != []
    ensures BlockOk(b.(tail := Next(b.size, b.tail), q := b.q + [v]), taken, false)
  {
    Publish(b.data, b.front, b.q, taken, b.tail, v);
  }

  /** A head that differs from the cached tail is a live element. */
  lemma HeadIsLive<T>(b: Block<T>, built: bool)
    requires BlockOk(b, false, built) && b.front != b.localTail
    ensures b.q != [] && b.front < |b.data| && b.data[b.front] == Live(b.q[0])
  {
    Take(b.data, b.front, b.q, false, built, Moved);
  }

  lemma TakeFromBlock<T>(b: Block<T>, taken: bool, built: bool, c: Cell<T>)
    requires BlockOk(b, taken, built) && b.front != b.localTail
    ensures BlockOk(b.(data := b.data[b.front := c]), true, built)
  {
    Take(b.data, b.front, b.q, taken, built, c);
  }

  lemma AdvanceInBlock<T>(b: Block<T>, built: bool)
    requires BlockOk(b, true, built) && b.front != b.localTail && b.data[b.front] == Raw
    ensures b.q != []
    ensures BlockOk(b.(front := Next(b.size, b.front), q := b.q[1..]), false, built)
  {
    Advance(b.data, b.front, b.q, built);
  }

  /** An empty block's four indices agree once the producer has refreshed its copy. */
  lemma EmptyBlockIndices<T>(b: Block<T>, taken: bool, built: bool)
    requires BlockOk(b, taken, built) && b.q == [] && b.localFront == b.front
    ensures b.front == b.tail == b.localTail
    ensures Next(b.size, b.tail) != b.localFront
  {
  }

  // ---------------------------------------------------------------- one block of many

  lemma PutRing<T>(blocks: seq<Block<T>>, ring: seq<nat>, t: nat, frontBlock: int, tailBlock: int, b: int, x: Block<T>)
    requires RingOk(blocks, ring, t, frontBlock, tailBlock)
    requires 0 <= b < |blocks| && (x.next == blocks[b].next || b !in ring)
    ensures RingOk(blocks[b := x], ring, t, frontBlock, tailBlock)
  {
    var blocks' := blocks[b := x];
    forall i | 0 <= i < |ring|
      ensures LinkAt(blocks', ring, i)
    {
      assert LinkAt(blocks, ring, i);
      assert ring[i] in ring;
    }
  }

  lemma PutBlocks<T>(blocks: seq<Block<T>>, taken: int, built: int, taken': int, built': int, b: int, x: Block<T>)
    requires BlocksOk(blocks, taken, built)
    requires 0 <= b < |blocks| && BlockOk(x, b == taken', b == built')
    requires taken == taken' || (taken == NULL && taken' == b) || (taken == b && taken' == NULL)
    requires built == built' || (built == NULL && built' == b) || (built == b && built' == NULL)
    ensures BlocksOk(blocks[b := x], taken', built')
  {
  }

  lemma PutFilled<T>(blocks: seq<Block<T>>, ring: seq<nat>, t: nat, pending: bool, b: int, x: Block<T>)
    requires forall i | 0 <= i < |ring| :: ring[i] < |blocks|
    requires 0 <= b < |blocks| && x.q == blocks[b].q && x.size == blocks[b].size
    requires Filled(blocks, ring, t, pending)
    ensures Filled(blocks[b := x], ring, t, pending)
  {
  }

  // ---------------------------------------------------------------- what the other thread relies on

  /** What a producer step leaves alone of what the consumer knows. */
  predicate ProducerFrame<T(==)>(s: State<T>, t: State<T>)
    requires RingOk(s.blocks, s.ring, s.t, s.frontBlock, s.tailBlock)
    requires RingOk(t.blocks, t.ring, t.t, t.frontBlock, t.tailBlock)
  {
    && t.c == s.c && t.saw == s.saw && t.frontBlock == s.frontBlock && s.t <= t.t
    && |s.blocks| <= |t.blocks|
    && var x, y := s.blocks[s.frontBlock], t.blocks[s.frontBlock];
    && y.size == x.size && y.front == x.front && y.localTail == x.localTail && |y.data| == |x.data|
    && (x.q != [] ==> x.q <= y.q)
    && (x.q != [] && x.front < |x.data| ==> y.data[x.front] == x.data[x.front])
    && (s.t > 0 ==>
        && y.q == x.q && y.tail == x.tail && t.ring[1] == s.ring[1]
        && t.blocks[s.ring[1]].front == s.blocks[s.ring[1]].front
        && t.blocks[s.ring[1]].localTail == s.blocks[s.ring[1]].localTail)
  }

  lemma ConsumerInvKept<T>(s: State<T>, t: State<T>)
    requires RingOk(s.blocks, s.ring, s.t, s.frontBlock, s.tailBlock)
    requires RingOk(t.blocks, t.ring, t.t, t.frontBlock, t.tailBlock)
    requires ProducerFrame(s, t) && ConsumerInv(s)
    ensures ConsumerInv(t)
  {
  }

  /** What a consumer step leaves alone of what the producer knows. */
  predicate ConsumerFrame<T(==)>(s: State<T>, t: State<T>)
    requires RingOk(s.blocks, s.ring, s.t, s.frontBlock, s.tailBlock)
    requires RingOk(t.blocks, t.ring, t.t, t.frontBlock, t.tailBlock)
  {
    && t.p == s.p && t.seen == s.seen && t.tailBlock == s.tailBlock && t.t <= s.t
    && |t.blocks| == |s.blocks| && |t.ring| == |s.ring|
    && t.ring[Next(|t.ring|, t.t)] == s.ring[Next(|s.ring|, s.t)]
    && var x, y := s.blocks[s.tailBlock], t.blocks[s.tailBlock];
    && y.size == x.size && y.tail == x.tail && y.localFront == x.localFront && |y.data| == |x.data|
    && (BuiltBlock(s.p) == s.tailBlock && x.tail < |x.data| ==> y.data[x.tail] == x.data[x.tail])
    && (t.t > 0 ==> y.q == x.q)
    && (s.t + 1 < |s.ring| ==> t.t + 1 < |t.ring| && t.blocks[s.ring[s.t + 1]] == s.blocks[s.ring[s.t + 1]])
    && (Valid(s, PrivateBlock(s.p)) ==> t.blocks[PrivateBlock(s.p)] == s.blocks[PrivateBlock(s.p)])
  }

  lemma ProducerInvKept<T>(s: State<T>, t: State<T>)
    requires RingOk(s.blocks, s.ring, s.t, s.frontBlock, s.tailBlock)
    requires RingOk(t.blocks, t.ring, t.t, t.frontBlock, t.tailBlock)
    requires ConsumerFrame(s, t) && ProducerInv(s)
    ensures ProducerInv(t)
  {
  }
}
