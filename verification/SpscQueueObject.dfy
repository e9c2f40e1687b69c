/**
 The queue of include/spsc_queue.hpp as an object that is updated in place.

 `TryPush` and `TryPop` make the source's accesses in the source's order, and between any two of them
 the other thread runs for as long as it likes: `ConsumerRuns` and `ProducerRuns` take any number of
 the other thread's steps. Each access is proved to be the machine's step, so what is proved of the
 machine holds of the object; the contracts below are what a caller can rely on under interference.
 */
module SpscQueueObject {
  import opened Words
  import opened Circular
  import opened SpscQueue
  import opened Accounting

  class SPSCQueue<T(==)> {
    const k: nat
    const buffer: array<Cell<T>>
    var reader: nat
    var writer: nat
    var p: Producer<T>      // the producer's registers
    var c: Consumer<T>      // the consumer's registers
    ghost var q: seq<T>     // the contents
    ghost var put: seq<T>   // every value that a store of `writer` has put in
    ghost var taken: seq<T> // every value that a store of `reader` has taken out

    ghost function View(): State<T>
      reads this, buffer
    {
      State(k, buffer[..], reader, writer, p, c, q)
    }

    ghost function TheBooks(): Books<T>
      reads this
    {
      Books(put, taken, q)
    }

    /** Whatever was put and not taken is there, and nothing else. */
    ghost predicate Valid()
      reads this, buffer
    {
      (Inv(View()) && Accounts(put, taken, q)) == true
    }

    constructor (k: nat)
      requires k <= 64
      ensures Valid() && fresh(buffer) && this.k == k && buffer.Length == Pow2(k)
      ensures q == [] && put == [] && taken == [] && p == PIdle && c == CIdle
    {
      this.k := k;
      buffer := new Cell<T>[Pow2(k)](_ => Raw);
      reader, writer := 0, 0;
      p, c := PIdle, CIdle;
      q, put, taken := [], [], [];
      new;
      InitInv(View());
      assert AccountsAre(put, taken, q);
    }

    // -------------------------------------------------------------- the producer's accesses

    method LoadWriter(data: T) returns (w: nat)
      requires Valid() && p.PIdle?
      modifies this`p
      ensures Valid() && old(Safe(View(), Produce(data))) && View() == old(ProducerStep(View(), data))
      ensures p == PHaveWriter(data, w) && w == writer && q == old(q)
    {
      InvSafe(View(), Produce(data));
      ProducerKeeps(View(), data);
      w := writer;
      p := PHaveWriter(data, w);
    }

    method LoadReaderAsProducer() returns (r: nat)
      requires Valid() && p.PHaveWriter?
      modifies this`p
      ensures Valid() && old(Safe(View(), Produce(p.v))) && View() == old(ProducerStep(View(), p.v))
      ensures r == reader && r < W && old(p.w) == writer < W && 1 <= buffer.Length <= W
      ensures FreeSpace(buffer.Length, writer, r) == buffer.Length - 1 - |q|
      ensures p == if FreeSpace(buffer.Length, writer, r) < 1 then PIdle else PRoom(old(p.v), writer)
    {
      InvSafe(View(), Produce(p.v));
      ProducerKeeps(View(), p.v);
      FreeSpaceExact(View());
      r := reader;
      p := if FreeSpace(buffer.Length, p.w, r) < 1 then PIdle else PRoom(p.v, p.w);
    }

    method ConstructSlot()
      requires Valid() && p.PRoom?
      modifies this`p, buffer
      ensures Valid() && old(Safe(View(), Produce(p.v))) && View() == old(ProducerStep(View(), p.v))
      ensures p == PBuilt(old(p.v), old(p.w)) && q == old(q)
    {
      InvSafe(View(), Produce(p.v));
      ProducerKeeps(View(), p.v);
      buffer[Mask(k, p.w)] := Live(p.v);
      p := PBuilt(p.v, p.w);
    }

    method StoreWriter()
      requires Valid() && p.PBuilt?
      modifies this`p, this`writer, this`q, this`put
      ensures Valid() && old(Safe(View(), Produce(p.v))) && View() == old(ProducerStep(View(), p.v))
      ensures p == PIdle && q == old(q) + [old(p.v)] && put == old(put) + [old(p.v)]
    {
      InvSafe(View(), Produce(p.v));
      ProducerKeeps(View(), p.v);
      AccountsPut(put, taken, q, [p.v]);
      writer := Add64(p.w, 1);
      q, put := q + [p.v], put + [p.v];
      p := PIdle;
    }

    // -------------------------------------------------------------- the consumer's accesses

    method LoadReader() returns (r: nat)
      requires Valid() && c.CIdle?
      modifies this`c
      ensures Valid() && old(Safe(View(), Consume)) && View() == old(ConsumerStep(View()))
      ensures c == CHaveReader(r) && r == reader
    {
      InvSafe(View(), Consume);
      ConsumerKeeps(View());
      r := reader;
      c := CHaveReader(r);
    }

    method LoadWriterAsConsumer() returns (w: nat)
      requires Valid() && c.CHaveReader?
      modifies this`c
      ensures Valid() && old(Safe(View(), Consume)) && View() == old(ConsumerStep(View()))
      ensures w == writer && old(c.r) == reader && (reader == w <==> q == [])
      ensures c == if reader == w then CIdle else CReady(reader)
    {
      InvSafe(View(), Consume);
      ConsumerKeeps(View());
      w := writer;
      c := if c.r == w then CIdle else CReady(c.r);
    }

    method MoveOut() returns (v: T)
      requires Valid() && c.CReady?
      modifies this`c, buffer
      ensures Valid() && old(Safe(View(), Consume)) && View() == old(ConsumerStep(View()))
      ensures c == CTaken(old(c.r), v)
    {
      InvSafe(View(), Consume);
      ConsumerKeeps(View());
      v := buffer[Mask(k, c.r)].value;
      buffer[Mask(k, c.r)] := Moved;
      c := CTaken(c.r, v);
    }

    method DestroySlot()
      requires Valid() && c.CTaken?
      modifies this`c, buffer
      ensures Valid() && old(Safe(View(), Consume)) && View() == old(ConsumerStep(View()))
      ensures c == CDestroyed(old(c.r), old(c.v))
    {
      InvSafe(View(), Consume);
      ConsumerKeeps(View());
      buffer[Mask(k, c.r)] := Raw;
      c := CDestroyed(c.r, c.v);
    }

    method StoreReader()
      requires Valid() && c.CDestroyed?
      modifies this`c, this`reader, this`q, this`taken
      ensures Valid() && old(Safe(View(), Consume)) && View() == old(ConsumerStep(View()))
      ensures c == CIdle && old(q) == [old(c.v)] + q && taken == old(taken) + [old(c.v)]
    {
      InvSafe(View(), Consume);
      ConsumerKeeps(View());
      assert q == [q[0]] + q[1..];
      AccountsTaken(put, taken, q[1..], [c.v]);
      reader := Add64(c.r, 1);
      q, taken := q[1..], taken + [c.v];
      c := CIdle;
    }

    // -------------------------------------------------------------- the other thread

    /** One step of the consumer, wherever it stands. */
    method ConsumerMoves()
      requires Valid()
      modifies this`c, this`reader, this`q, this`taken, buffer
      ensures Valid() && ConsumerRely(old(View()), View())
    {
      ConsumerStepRely(View(), View());
      match c {
        case CIdle => var _ := LoadReader();
        case CHaveReader(_) => var _ := LoadWriterAsConsumer();
        case CReady(_) => var _ := MoveOut();
        case CTaken(_, _) => DestroySlot();
        case CDestroyed(_, _) => StoreReader();
      }
    }

    /** One step of the producer, wherever it stands; an idle one begins a push of v. */
    method ProducerMoves(v: T)
      requires Valid()
      modifies this`p, this`writer, this`q, this`put, buffer
      ensures Valid() && ProducerRely(old(View()), View())
    {
      match p {
        case PIdle =>
          ProducerStepRely(View(), View(), v);
          var _ := LoadWriter(v);
        case PHaveWriter(x, _) =>
          ProducerStepRely(View(), View(), x);
          var _ := LoadReaderAsProducer();
        case PRoom(x, _) =>
          ProducerStepRely(View(), View(), x);
          ConstructSlot();
        case PBuilt(x, _) =>
          ProducerStepRely(View(), View(), x);
          StoreWriter();
      }
    }

    /** The consumer runs for any number of steps. */
    method ConsumerRuns()
      requires Valid()
      modifies this`c, this`reader, this`q, this`taken, buffer
      ensures Valid() && ConsumerRely(old(View()), View())
      ensures Remains(q, old(q))
    {
      var n: nat := *;
      while n > 0
        invariant Valid() && ConsumerRely(old(View()), View())
      {
        ConsumerMoves();
        n := n - 1;
      }
    }

    /** The producer runs for any number of steps, pushing what it likes. */
    method ProducerRuns()
      requires Valid()
      modifies this`p, this`writer, this`q, this`put, buffer
      ensures Valid() && ProducerRely(old(View()), View())
    {
      var n: nat := *;
      while n > 0
        invariant Valid() && ProducerRely(old(View()), View())
      {
        var next: seq<T> := *;
        if next != [] {
          ProducerMoves(next[0]);
        }
        n := n - 1;
      }
    }

    // -------------------------------------------------------------- the operations

    /**
     A push puts the element behind everything that was there, or puts nothing and fails because the queue was
     full; meanwhile the consumer takes `gone`, some of the oldest elements, and the rest is still there.
     */
    method TryPush(data: T) returns (ok: bool, ghost gone: seq<T>)
      requires Valid() && p.PIdle?
      modifies this, buffer
      ensures Valid() && p.PIdle?
      ensures Exchanged(old(TheBooks()), TheBooks(), if ok then [data] else [], gone)
      ensures !ok ==> |old(q)| == buffer.Length - 1
    {
      var w := LoadWriter(data);
      ConsumerRuns();
      var r := LoadReaderAsProducer();
      var freeSpace := FreeSpace(buffer.Length, w, r);
      if freeSpace < 1 {
        assert q + [] == q && put + [] == put && old(q) + [] == old(q);
        gone := WhatWent(old(TheBooks()), TheBooks(), []);
        return false, gone;
      }
      StoreData(data, old(q));
      gone := WhatWent(old(TheBooks()), TheBooks(), [data]);
      return true, gone;
    }

    /** There is room. */
    method StoreData(data: T, ghost was: seq<T>)
      requires Valid() && p.PRoom? && p.v == data && Remains(q, was)
      modifies this, buffer
      ensures Valid() && p.PIdle? && put == old(put) + [data] && Remains(q, was + [data])
    {
      ghost var q1 := q;
      ConsumerRuns();
      RemainsTrans(q, q1, was);
      ConstructSlot();
      ghost var q2 := q;
      ConsumerRuns();
      RemainsTrans(q, q2, was);
      RemainsAppend(q, was, data);
      StoreWriter();
    }

    /**
     A pop takes the oldest element out and returns it, or takes nothing and fails because the queue was
     empty; meanwhile the producer puts `came` behind, which is still there.
     */
    method TryPop() returns (ok: bool, dst: seq<T>, ghost came: seq<T>)
      requires Valid() && c.CIdle?
      modifies this, buffer
      ensures Valid() && c.CIdle?
      ensures if ok then |dst| == 1 else dst == [] && old(q) == []
      ensures Exchanged(old(TheBooks()), TheBooks(), came, dst)
    {
      var r := LoadReader();
      ProducerRuns();
      var w := LoadWriterAsConsumer();
      if r == w {
        assert taken + [] == taken && [] + q == q;
        came := WhatCame(old(TheBooks()), TheBooks(), []);
        return false, [], came;
      }
      var v := TakeData(old(q));
      came := WhatCame(old(TheBooks()), TheBooks(), [v]);
      return true, [v], came;
    }

    /** There is an element. */
    method TakeData(ghost was: seq<T>) returns (v: T)
      requires Valid() && c.CReady? && was <= q
      modifies this, buffer
      ensures Valid() && c.CIdle? && taken == old(taken) + [v] && was <= [v] + q
    {
      ProducerRuns();
      v := MoveOut();
      ProducerRuns();
      DestroySlot();
      ProducerRuns();
      StoreReader();
    }

    /**
     The destructor destroys every element still held, oldest first, each exactly once, and nothing
     else; afterwards no slot holds an object.
     */
    method Destroy() returns (ghost destroyed: seq<T>)
      requires Valid() && p.PIdle? && c.CIdle?
      modifies buffer
      ensures destroyed == old(q) && AllRaw(buffer[..])
      ensures (destroyed, buffer[..]) == Destruct(old(buffer[..]), k, reader, writer)
    {
      DestructIs(View());
      WriterSlot(View());
      ghost var after := Destruct(buffer[..], k, reader, writer).1;
      destroyed := DestroyElements(q);
      assert buffer[..] == after;
    }

    /** Its loop. */
    method DestroyElements(ghost held: seq<T>) returns (ghost destroyed: seq<T>)
      requires k <= 64 && buffer.Length == Pow2(k) && reader < W && writer < W
      requires Mask(k, reader) < buffer.Length && Holds(buffer[..], Mask(k, reader), held, false, false)
      requires Sub64(writer, reader) == |held| < W
      modifies buffer
      ensures destroyed == held && AllRaw(buffer[..])
    {
      var r: nat, w: nat := reader, writer;
      destroyed := [];
      ghost var left := held;
      while r != w
        invariant r < W && destroyed + left == held && Sub64(w, r) == |left| < W
        invariant Holds(buffer[..], Mask(k, r), left, false, false)
        decreases |left|
      {
        OldestGoes(buffer[..], k, r, w, left);
        destroyed := destroyed + [left[0]];
        buffer[Mask(k, r)] := Raw;
        assert left == [left[0]] + left[1..];
        left := left[1..];
        r := Add64(r, 1);
      }
      EmptyIsRaw(buffer[..], Mask(k, r));
    }
  }
}
