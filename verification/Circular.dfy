/**
 Circular buffers of object slots, shared by the fixed queue and by each block of the growing queue.

 Indices stay in [0, size); the elements are the slots met when walking from `head`.
 */
module Circular {

  /** The life of one slot: raw storage, a constructed element, or an element that has been moved from. */
  datatype Cell<T> = Raw | Live(value: T) | Moved

  /** `(i + 1) & sizeMask` for an index below a power-of-two size. */
  function Next(size: nat, i: nat): (j: nat)
    requires i < size
    ensures j < size
  {
    if i + 1 == size then 0 else i + 1
  }

  /** How many forward moves lead from i to j. */
  function Dist(size: nat, i: nat, j: nat): (d: nat)
    requires i < size && j < size
    ensures d < size
  {
    if i <= j then j - i else j + size - i
  }

  /** The slot d moves after i. */
  function At(size: nat, i: nat, d: nat): (j: nat)
    requires i < size && d < size
    ensures j < size && Dist(size, i, j) == d
  {
    if i + d < size then i + d else i + d - size
  }

  /**
   What the slot at distance k from the head holds. `taken` excuses the head slot while the consumer
   is between moving its element out and advancing the head; `built` excuses the slot just past the
   elements while the producer is between constructing there and advancing the tail.
   */
  predicate CellOk<T(==)>(c: Cell<T>, k: nat, q: seq<T>, taken: bool, built: bool) {
    if k < |q| then c == Live(q[k]) || (k == 0 && taken)
    else c == Raw || (k == |q| && built)
  }

  /** The slots hold exactly the elements q, starting at head, and every other slot is raw. */
  predicate Holds<T(==)>(cells: seq<Cell<T>>, head: nat, q: seq<T>, taken: bool, built: bool) {
    && head < |cells|
    && |q| < |cells|
    && forall i | 0 <= i < |cells| :: CellOk(cells[i], Dist(|cells|, head, i), q, taken, built)
  }

  /** Constructing in the slot just past the elements: it was raw, and nothing else moved. */
  lemma Construct<T>(cells: seq<Cell<T>>, head: nat, q: seq<T>, taken: bool, tail: nat, v: T)
    requires Holds(cells, head, q, taken, false)
    requires tail == At(|cells|, head, |q|)
    ensures cells[tail] == Raw
    ensures Holds(cells[tail := Live(v)], head, q, taken, true)
  {
    assert CellOk(cells[tail], Dist(|cells|, head, tail), q, taken, false);
  }

  /** Publishing a constructed element appends it to the contents. */
  lemma Publish<T>(cells: seq<Cell<T>>, head: nat, q: seq<T>, taken: bool, tail: nat, v: T)
    requires Holds(cells, head, q, taken, true)
    requires tail == At(|cells|, head, |q|) && cells[tail] == Live(v)
    requires |q| + 1 < |cells|
    requires taken ==> q != []
    ensures Holds(cells, head, q + [v], taken, false)
    ensures Next(|cells|, tail) == At(|cells|, head, |q| + 1)
  {
    forall i | 0 <= i < |cells|
      ensures CellOk(cells[i], Dist(|cells|, head, i), q + [v], taken, false)
    {
      assert CellOk(cells[i], Dist(|cells|, head, i), q, taken, true);
    }
  }

  /** Emptying or destroying the head slot touches no other slot. */
  lemma Take<T>(cells: seq<Cell<T>>, head: nat, q: seq<T>, taken: bool, built: bool, c: Cell<T>)
    requires Holds(cells, head, q, taken, built) && q != []
    ensures !taken ==> cells[head] == Live(q[0])
    ensures Holds(cells[head := c], head, q, true, built)
  {
    assert CellOk(cells[head], Dist(|cells|, head, head), q, taken, built);
  }

  /** Advancing the head past a destroyed slot removes exactly the oldest element. */
  lemma Advance<T>(cells: seq<Cell<T>>, head: nat, q: seq<T>, built: bool)
    requires Holds(cells, head, q, true, built) && q != []
    requires cells[head] == Raw
    ensures Holds(cells, Next(|cells|, head), q[1..], false, built)
    ensures At(|cells|, head, |q|) == At(|cells|, Next(|cells|, head), |q| - 1)
  {
    forall i | 0 <= i < |cells|
      ensures CellOk(cells[i], Dist(|cells|, Next(|cells|, head), i), q[1..], false, built)
    {
      assert CellOk(cells[i], Dist(|cells|, head, i), q, true, built);
    }
  }

  // ---------------------------------------------------------------- objects

  predicate AllRaw<T(==)>(cells: seq<Cell<T>>) {
    forall k | 0 <= k < |cells| :: cells[k] == Raw
  }

  lemma EmptyIsRaw<T>(cells: seq<Cell<T>>, head: nat)
    requires Holds(cells, head, [], false, false)
    ensures AllRaw(cells)
  {
    var none: seq<T> := [];
    forall k | 0 <= k < |cells|
      ensures cells[k] == Raw
    {
      assert CellOk(cells[k], Dist(|cells|, head, k), none, false, false);
    }
  }

  /** Destroying the oldest element in place: what is left starts at the next slot. */
  lemma DropOldest<T>(cells: seq<Cell<T>>, head: nat, q: seq<T>)
    requires Holds(cells, head, q, false, false) && q != []
    ensures cells[head] == Live(q[0])
    ensures Holds(cells[head := Raw], Next(|cells|, head), q[1..], false, false)
  {
    Take(cells, head, q, false, false, Raw);
    Advance(cells[head := Raw], head, q, false);
  }

  /** A destructor's loop from slot i to slot tail: the elements it destroys, in order, and the slots afterwards. */
  function Clear<T(==)>(cells: seq<Cell<T>>, i: nat, tail: nat): (seq<T>, seq<Cell<T>>)
    requires i < |cells| && tail < |cells|
    decreases Dist(|cells|, i, tail)
  {
    if i == tail then ([], cells)
    else
      var rest := Clear(cells[i := Raw], Next(|cells|, i), tail);
      ((if cells[i].Live? then [cells[i].value] else []) + rest.0, rest.1)
  }

  /** The loop destroys exactly the elements held, oldest first, and leaves no object. */
  lemma {:induction false} ClearIs<T>(cells: seq<Cell<T>>, i: nat, tail: nat, q: seq<T>)
    requires Holds(cells, i, q, false, false) && tail < |cells| && |q| == Dist(|cells|, i, tail)
    ensures Clear(cells, i, tail).0 == q
    ensures |Clear(cells, i, tail).1| == |cells| && AllRaw(Clear(cells, i, tail).1)
    decreases |q|
  {
    if q == [] {
      EmptyIsRaw(cells, i);
    } else {
      DropOldest(cells, i, q);
      ClearIs(cells[i := Raw], Next(|cells|, i), tail, q[1..]);
      assert q == [q[0]] + q[1..];
    }
  }

  /** How many objects live in the slots; one that has been moved from still has to be destroyed. */
  function Objects<T>(cells: seq<Cell<T>>): (n: nat)
    ensures n <= |cells|
  {
    if cells == [] then 0
    else Objects(cells[..|cells| - 1]) + (if cells[|cells| - 1].Raw? then 0 else 1)
  }

  /** Constructing in a raw slot adds one object, destroying one takes it away. */
  lemma {:induction false} ObjectsPut<T>(cells: seq<Cell<T>>, i: nat, c: Cell<T>)
    requires i < |cells|
    ensures Objects(cells[i := c]) == Objects(cells) - (if cells[i].Raw? then 0 else 1) + (if c.Raw? then 0 else 1)
  {
    var last := |cells| - 1;
    if i == last {
      assert cells[i := c][..last] == cells[..last];
    } else {
      assert cells[i := c][..last] == cells[..last][i := c];
      ObjectsPut(cells[..last], i, c);
    }
  }

  lemma {:induction false} NoObjects<T>(cells: seq<Cell<T>>)
    requires AllRaw(cells)
    ensures Objects(cells) == 0
  {
    if cells != [] {
      NoObjects(cells[..|cells| - 1]);
    }
  }

  /** A quiet circular buffer has exactly one object for each of its elements. */
  lemma {:induction false} HoldsObjects<T>(cells: seq<Cell<T>>, head: nat, q: seq<T>)
    requires Holds(cells, head, q, false, false)
    ensures Objects(cells) == |q|
    decreases |q|
  {
    if q == [] {
      EmptyIsRaw(cells, head);
      NoObjects(cells);
    } else {
      DropOldest(cells, head, q);
      ObjectsPut(cells, head, Raw);
      HoldsObjects(cells[head := Raw], Next(|cells|, head), q[1..]);
    }
  }
}
