/** Adding up over the blocks: round the ring, or by number, comes to the same. */
module BlockRingWalks {
  import opened Circular
  import opened BlockRing
  import opened BlockRingInvariant

  /** ids lists each number below n exactly once. */
  ghost predicate Covers(ids: seq<nat>, n: nat) {
    && (forall i | 0 <= i < |ids| :: ids[i] < n)
    && (forall i, j | 0 <= i < j < |ids| :: ids[i] != ids[j])
    && (forall b: nat | b < n :: b in ids)
  }

  function Without(ids: seq<nat>, k: nat): seq<nat>
    requires k < |ids|
  {
    ids[..k] + ids[k + 1..]
  }

  lemma CoversLess(ids: seq<nat>, n: nat) returns (k: nat)
    requires Covers(ids, n) && n > 0
    ensures k < |ids| && ids[k] == n - 1 && Covers(Without(ids, k), n - 1)
  {
    assert n - 1 in ids;
    k :| 0 <= k < |ids| && ids[k] == n - 1;
    var others := Without(ids, k);
    forall b: nat | b < n - 1
      ensures b in others
    {
      assert b in ids;
      var i :| 0 <= i < |ids| && ids[i] == b;
      assert others[if i < k then i else i - 1] == b;
    }
  }

  lemma {:induction false} CoversLength(ids: seq<nat>, n: nat)
    requires Covers(ids, n)
    ensures |ids| == n
  {
    assert ids == [] || ids[0] < n;
    if n > 0 {
      var k := CoversLess(ids, n);
      CoversLength(Without(ids, k), n - 1);
    }
  }

  /** With no enqueue in flight every block is in the ring, once. */
  lemma WholeRing<T>(s: State<T>)
    requires Inv(s) && s.p.PIdle?
    ensures Covers(s.ring, |s.blocks|) && |s.ring| == |s.blocks|
  {
    CoversLength(s.ring, |s.blocks|);
  }

  // ---------------------------------------------------------------- sums

  /** What a block can hold: one slot stays free. */
  function Room<T>(b: Block<T>): nat { if b.size == 0 then 0 else b.size - 1 }

  function Length<T>(b: Block<T>): nat { |b.q| }

  /** How many objects live in a block's storage. */
  function Alive<T>(b: Block<T>): nat { Objects(b.data) }

  /** By number. */
  function Sum<T>(blocks: seq<Block<T>>, f: Block<T> -> nat): nat {
    if blocks == [] then 0 else Sum(blocks[..|blocks| - 1], f) + f(blocks[|blocks| - 1])
  }

  /** In the order of ids. */
  function RingSum<T>(blocks: seq<Block<T>>, ids: seq<nat>, f: Block<T> -> nat): nat {
    if ids == [] then 0
    else (if ids[0] < |blocks| then f(blocks[ids[0]]) else 0) + RingSum(blocks, ids[1..], f)
  }

  lemma {:induction false} RingSumConcat<T>(blocks: seq<Block<T>>, a: seq<nat>, b: seq<nat>, f: Block<T> -> nat)
    ensures RingSum(blocks, a + b, f) == RingSum(blocks, a, f) + RingSum(blocks, b, f)
  {
    if a == [] {
      assert a + b == b;
    } else {
      assert (a + b)[1..] == a[1..] + b;
      RingSumConcat(blocks, a[1..], b, f);
    }
  }

  lemma RingSumNext<T>(blocks: seq<Block<T>>, ring: seq<nat>, i: nat, f: Block<T> -> nat)
    requires i < |ring| && ring[i] < |blocks|
    ensures RingSum(blocks, ring[..i + 1], f) == RingSum(blocks, ring[..i], f) + f(blocks[ring[i]])
  {
    assert ring[..i + 1] == ring[..i] + [ring[i]];
    assert [ring[i]][1..] == [];
    RingSumConcat(blocks, ring[..i], [ring[i]], f);
  }

  lemma {:induction false} RingSumSame<T>(xs: seq<Block<T>>, ys: seq<Block<T>>, ids: seq<nat>, f: Block<T> -> nat)
    requires forall i | 0 <= i < |ids| :: ids[i] < |xs| && ids[i] < |ys| && xs[ids[i]] == ys[ids[i]]
    ensures RingSum(xs, ids, f) == RingSum(ys, ids, f)
  {
    if ids != [] {
      RingSumSame(xs, ys, ids[1..], f);
    }
  }

  lemma RingSumWithout<T>(blocks: seq<Block<T>>, ids: seq<nat>, k: nat, f: Block<T> -> nat)
    requires k < |ids| && ids[k] < |blocks|
    ensures RingSum(blocks, ids, f) == RingSum(blocks, Without(ids, k), f) + f(blocks[ids[k]])
  {
    var a, z := ids[..k], ids[k + 1..];
    assert ids == a + ([ids[k]] + z);
    assert ([ids[k]] + z)[1..] == z;
    RingSumConcat(blocks, a, [ids[k]] + z, f);
    RingSumConcat(blocks, a, z, f);
  }

  /** Adding up round the ring is adding up over all blocks. */
  lemma {:induction false} RingSumIsSum<T>(blocks: seq<Block<T>>, ids: seq<nat>, f: Block<T> -> nat)
    requires Covers(ids, |blocks|)
    ensures RingSum(blocks, ids, f) == Sum(blocks, f)
  {
    assert ids == [] || ids[0] < |blocks|;
    if blocks != [] {
      var k := CoversLess(ids, |blocks|);
      RingSumWithout(blocks, ids, k, f);
      RingSumSame(blocks, blocks[..|blocks| - 1], Without(ids, k), f);
      RingSumIsSum(blocks[..|blocks| - 1], Without(ids, k), f);
    }
  }

  lemma {:induction false} SumPut<T>(blocks: seq<Block<T>>, b: nat, x: Block<T>, f: Block<T> -> nat)
    requires b < |blocks|
    ensures Sum(blocks[b := x], f) + f(blocks[b]) == Sum(blocks, f) + f(x)
  {
    var last := |blocks| - 1;
    if b == last {
      assert blocks[b := x][..last] == blocks[..last];
    } else {
      assert blocks[b := x][..last] == blocks[..last][b := x];
      SumPut(blocks[..last], b, x, f);
    }
  }

  /** Measures that agree on every block add up to the same. */
  lemma {:induction false} SumAgrees<T>(blocks: seq<Block<T>>, f: Block<T> -> nat, g: Block<T> -> nat)
    requires forall i | 0 <= i < |blocks| :: f(blocks[i]) == g(blocks[i])
    ensures Sum(blocks, f) == Sum(blocks, g)
  {
    if blocks != [] {
      SumAgrees(blocks[..|blocks| - 1], f, g);
    }
  }

  lemma {:induction false} ContentsLength<T>(blocks: seq<Block<T>>, ids: seq<nat>)
    ensures |Contents(blocks, ids)| == RingSum(blocks, ids, Length)
  {
    if ids != [] {
      ContentsLength(blocks, ids[1..]);
    }
  }

  // ---------------------------------------------------------------- the contents of the whole ring

  lemma EmptyBehind<T>(s: State<T>)
    requires Inv(s) && s.p.PIdle?
    ensures s.t < |s.ring| && forall i | s.t < i < |s.ring| :: s.ring[i] < |s.blocks| && s.blocks[s.ring[i]].q == []
  {
    assert Filled(s.blocks, s.ring, s.t, false);
  }

  /** The blocks behind the tail block are empty, so the whole ring holds what the queue holds. */
  lemma RestIsEmpty<T>(s: State<T>)
    requires Inv(s) && s.p.PIdle?
    ensures Contents(s.blocks, s.ring) == Q(s)
  {
    EmptyBehind(s);
    EmptyTail(s.blocks, s.ring, s.t, |s.ring|);
    assert s.ring[..|s.ring|] == s.ring;
  }

  lemma {:induction false} EmptyTail<T>(blocks: seq<Block<T>>, ring: seq<nat>, t: nat, n: nat)
    requires t < n <= |ring|
    requires forall i | t < i < |ring| :: ring[i] < |blocks| && blocks[ring[i]].q == []
    ensures Contents(blocks, ring[..n]) == Contents(blocks, ring[..t + 1])
    decreases n
  {
    if t + 1 < n {
      AtTail(blocks, ring, n - 1);
      EmptyTail(blocks, ring, t, n - 1);
    }
  }

  /** With no operation in flight, the objects alive in all blocks are as many as the queue's elements. */
  lemma AliveIsLength<T>(s: State<T>)
    requires Inv(s) && s.p.PIdle? && s.c.CIdle?
    ensures Sum(s.blocks, Alive) == |Q(s)|
  {
    forall i | 0 <= i < |s.blocks|
      ensures Alive(s.blocks[i]) == Length(s.blocks[i])
    {
      assert BlockOk(s.blocks[i], false, false);
      HoldsObjects(s.blocks[i].data, s.blocks[i].front, s.blocks[i].q);
    }
    SumAgrees(s.blocks, Alive, Length);
    WholeRing(s);
    RingSumIsSum(s.blocks, s.ring, Length);
    ContentsLength(s.blocks, s.ring);
    RestIsEmpty(s);
  }

  // ---------------------------------------------------------------- the destructor

  predicate InRange<T>(b: Block<T>) {
    b.front < |b.data| && b.tail < |b.data|
  }

  /**
   The destructor's walk from block b until it comes back to `first`: the elements it destroys, the blocks
   it frees, both in order, and the blocks' storage afterwards. `fuel` only bounds the recursion.
   */
  function Destruct<T(==)>(blocks: seq<Block<T>>, b: int, first: int, fuel: nat): (seq<T>, seq<nat>, seq<Block<T>>)
    decreases fuel
  {
    if fuel == 0 || !(0 <= b < |blocks|) || !InRange(blocks[b]) then ([], [], blocks)
    else
      var x := blocks[b];
      var cleared := Clear(x.data, x.front, x.tail);
      var after := blocks[b := x.(data := cleared.1)];
      if x.next == first then (cleared.0, [b], after)
      else
        var rest := Destruct(after, x.next, first, fuel - 1);
        (cleared.0 + rest.0, [b] + rest.1, rest.2)
  }

  /** The destructor's inner loop destroys the block's elements and leaves no object. */
  predicate Clears<T(==)>(x: Block<T>) {
    InRange(x) && Clear(x.data, x.front, x.tail).0 == x.q && AllRaw(Clear(x.data, x.front, x.tail).1)
  }

  lemma QuietBlock<T>(s: State<T>, b: nat)
    requires Inv(s) && s.p.PIdle? && s.c.CIdle? && b < |s.blocks|
    ensures Clears(s.blocks[b])
  {
    var x := s.blocks[b];
    assert BlockOk(x, false, false);
    ClearIs(x.data, x.front, x.tail, x.q);
  }

  /** ring lists blocks in `next` order, and comes back to its start only after the last. */
  ghost predicate Circle<T>(blocks: seq<Block<T>>, ring: seq<nat>) {
    && (forall i | 0 <= i < |ring| :: ring[i] < |blocks|)
    && (forall i, j | 0 <= i < j < |ring| :: ring[i] != ring[j])
    && (forall i | 0 <= i < |ring| :: LinkAt(blocks, ring, i))
  }

  predicate ChainAt<T>(blocks: seq<Block<T>>, ids: seq<nat>, first: int, k: nat)
    requires k < |ids|
  {
    && ids[k] < |blocks| && blocks[ids[k]].next == (if k + 1 == |ids| then first else ids[k + 1])
    && (k > 0 ==> ids[k] != first)
  }

  /** ids lists distinct blocks in `next` order, up to the one whose next is `first`. */
  ghost predicate Chain<T>(blocks: seq<Block<T>>, ids: seq<nat>, first: int) {
    && (forall k | 0 <= k < |ids| :: ChainAt(blocks, ids, first, k))
    && (forall k, l | 0 <= k < l < |ids| :: ids[k] != ids[l])
  }

  lemma CircleIsChain<T>(blocks: seq<Block<T>>, ring: seq<nat>)
    requires Circle(blocks, ring) && ring != []
    ensures Chain(blocks, ring, ring[0])
  {
    forall k | 0 <= k < |ring|
      ensures ChainAt(blocks, ring, ring[0], k)
    {
      assert LinkAt(blocks, ring, k);
    }
  }

  lemma ChainRest<T>(blocks: seq<Block<T>>, ids: seq<nat>, first: int)
    requires Chain(blocks, ids, first) && |ids| > 1
    ensures Chain(blocks, ids[1..], first)
  {
    var rest := ids[1..];
    forall k | 0 <= k < |rest|
      ensures ChainAt(blocks, rest, first, k)
    {
      assert ChainAt(blocks, ids, first, k + 1);
    }
  }

  /** The walk at one block: it is cleared, and the walk goes on with the others as they were. */
  lemma ClearOne<T>(xs: seq<Block<T>>, blocks: seq<Block<T>>, ids: seq<nat>, first: int) returns (after: seq<Block<T>>)
    requires Chain(xs, ids, first) && ids != [] && ids[0] < |blocks| == |xs| && Clears(xs[ids[0]])
    requires blocks[ids[0]] == xs[ids[0]]
    ensures |after| == |blocks| && AllRaw(after[ids[0]].data)
    ensures forall b | 0 <= b < |blocks| && b != ids[0] :: after[b] == blocks[b]
    ensures Destruct(blocks, ids[0], first, |ids|) ==
            if |ids| == 1 then (xs[ids[0]].q, [ids[0]], after)
            else
              var rest := Destruct(after, ids[1], first, |ids| - 1);
              (xs[ids[0]].q + rest.0, [ids[0]] + rest.1, rest.2)
  {
    var x := xs[ids[0]];
    after := blocks[ids[0] := x.(data := Clear(x.data, x.front, x.tail).1)];
    assert ChainAt(xs, ids, first, 0);
    assert |ids| > 1 ==> ChainAt(xs, ids, first, 1);
  }

  /** The walk over a chain: each block is freed once, its elements are destroyed, and no object is left in it. */
  lemma {:induction false} DestructChain<T>(xs: seq<Block<T>>, blocks: seq<Block<T>>, ids: seq<nat>, first: int)
    requires Chain(xs, ids, first) && ids != [] && |blocks| == |xs| && forall b | 0 <= b < |xs| :: Clears(xs[b])
    requires forall b <- ids :: b < |blocks| && blocks[b] == xs[b]
    ensures var (destroyed, freed, after) := Destruct(blocks, ids[0], first, |ids|);
            && destroyed == Contents(xs, ids) && freed == ids && |after| == |blocks|
            && (forall b <- ids :: b < |after| && AllRaw(after[b].data))
            && (forall b | 0 <= b < |blocks| && b !in ids :: after[b] == blocks[b])
    decreases |ids|
  {
    assert ChainAt(xs, ids, first, 0);
    var after := ClearOne(xs, blocks, ids, first);
    if |ids| == 1 {
      ContentsOne(xs, ids[0]);
      assert ids == [ids[0]];
    } else {
      var rest := ids[1..];
      ChainRest(xs, ids, first);
      assert ids == [ids[0]] + rest && ids[0] !in rest;
      DestructChain(xs, after, rest, first);
    }
  }

  /**
   With no operation in flight the destructor destroys the queue's elements, oldest first, frees every
   block exactly once, and leaves no object in any of them.
   */
  lemma DestructIs<T>(s: State<T>)
    requires Inv(s) && s.p.PIdle? && s.c.CIdle?
    ensures var (destroyed, freed, after) := Destruct(s.blocks, s.frontBlock, s.frontBlock, |s.blocks|);
            && destroyed == Q(s) && freed == s.ring && Covers(freed, |s.blocks|) && |after| == |s.blocks|
            && forall b | 0 <= b < |after| :: AllRaw(after[b].data)
  {
    WholeRing(s);
    RingIsCircle(s);
    forall b | 0 <= b < |s.blocks|
      ensures Clears(s.blocks[b])
    {
      QuietBlock(s, b);
    }
    CircleIsChain(s.blocks, s.ring);
    DestructChain(s.blocks, s.blocks, s.ring, s.frontBlock);
    RestIsEmpty(s);
    var after := Destruct(s.blocks, s.frontBlock, s.frontBlock, |s.blocks|).2;
    forall b | 0 <= b < |after|
      ensures AllRaw(after[b].data)
    {
      assert b in s.ring;
      var j :| 0 <= j < |s.ring| && s.ring[j] == b;
    }
  }

  lemma RingIsCircle<T>(s: State<T>)
    requires Inv(s)
    ensures Circle(s.blocks, s.ring) && 0 < |s.ring| && s.ring[0] == s.frontBlock
  {
  }
}
