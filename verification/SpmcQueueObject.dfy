/**
 The fan-out queue of include/spmc_queue_trivially_copiable.hpp as an object that is updated in place.

 `Push` and `Pop` make the source's accesses in the source's order; between any two of them stores
 drain to memory, consumers come, and the other threads run, as much as they like. Each access is
 proved to be the machine's step.
 */
module SpmcQueueObject {
  import opened Words
  import opened SpmcQueue
  import opened SpmcProof

  /** What `pop` answers; `TooSlow` is the call to `std::abort`. */
  datatype Answer<T> = NotYet | Got(msg: seq<T>) | TooSlow

  function Rank(phase: Phase): nat {
    match phase
    case Start => 0
    case Open(_) => 1
    case Closed => 2
  }

  /** Stores reach memory in program order only. */
  predicate Later(a: Pos, b: Pos) {
    a.i < b.i || (a.i == b.i && Rank(a.phase) <= Rank(b.phase))
  }

  lemma DrainLater<T>(s: State<T>)
    requires Inv(s) && Safe(s, Drain)
    ensures Later(s.at, DrainStep(s).at)
  {
  }

  class SPMCQueue<T(==)> {
    const k: nat
    const m: nat
    const versions: array<nat>
    const data: array<seq<T>>
    var writer: nat
    var buffer: seq<Store<T>>          // the producer's store buffer
    var p: Producer<T>                 // the producer's registers
    var consumers: seq<Consumer<T>>    // the consumers and their registers
    ghost var msgs: seq<seq<T>>
    ghost var at: Pos

    ghost function View(): State<T>
      reads this, versions, data
    {
      State(k, m, Memory(versions[..], data[..], writer), buffer, p, consumers, msgs, at)
    }

    ghost predicate Valid()
      reads this, versions, data
    {
      Inv(View()) == true
    }

    constructor (k: nat, m: nat, blank: seq<T>)
      requires m >= 1 && |blank| == m
      ensures Valid() && fresh(versions) && fresh(data) && this.k == k && this.m == m
      ensures msgs == [] && p == PIdle && consumers == []
    {
      this.k, this.m := k, m;
      versions := new nat[Pow2(k)](_ => 0);
      data := new seq<T>[Pow2(k)](_ => blank);
      writer, buffer, p, consumers := 0, [], PIdle, [];
      msgs, at := [], Pos(0, Start);
      new;
      InitInv(View());
    }

    // -------------------------------------------------------------- the producer's accesses

    method LoadWriterForward(val: seq<T>)
      requires Valid() && p.PIdle? && |val| == m
      modifies this`p, this`msgs
      ensures Valid() && old(Safe(View(), Producing(val, 0))) && View() == old(PushStep(View(), val, 0))
      ensures p.PLoadVersion? && p.val == val && msgs == old(msgs) + [val]
    {
      InvSafe(View(), Producing(val, 0));
      PushKeeps(View(), val, 0);
      p := PLoadVersion(val, LoadWriter(Memory(versions[..], data[..], writer), buffer));
      msgs := msgs + [val];
    }

    method LoadVersionForward()
      requires Valid() && p.PLoadVersion?
      modifies this`p
      ensures Valid() && old(Safe(View(), Producing(p.val, 0))) && View() == old(PushStep(View(), p.val, 0))
      ensures p.POpen? && p.val == old(p.val)
    {
      InvSafe(View(), Producing(p.val, 0));
      PushKeeps(View(), p.val, 0);
      var slot := Slot(k, p.w);
      p := POpen(p.val, p.w, LoadVersion(Memory(versions[..], data[..], writer), buffer, slot));
    }

    method StoreOddVersion()
      requires Valid() && p.POpen?
      modifies this`p, this`buffer
      ensures Valid() && old(Safe(View(), Producing(p.val, 0))) && View() == old(PushStep(View(), p.val, 0))
      ensures p == PData(old(p.val), old(p.w), old(p.ver), {})
    {
      InvSafe(View(), Producing(p.val, 0));
      PushKeeps(View(), p.val, 0);
      buffer := buffer + [Version(Slot(k, p.w), p.ver + 1)];
      p := PData(p.val, p.w, p.ver, {});
    }

    method StoreWord(word: nat)
      requires Valid() && p.PData? && word < m && word !in p.done
      modifies this`p, this`buffer
      ensures Valid() && old(Safe(View(), Producing(p.val, word))) && View() == old(PushStep(View(), p.val, word))
      ensures p == PData(old(p.val), old(p.w), old(p.ver), old(p.done) + {word})
    {
      InvSafe(View(), Producing(p.val, word));
      PushKeeps(View(), p.val, word);
      buffer := buffer + [Data(Slot(k, p.w), word, p.val[word])];
      p := PData(p.val, p.w, p.ver, p.done + {word});
    }

    method StoreEvenVersion()
      requires Valid() && p.PData? && All(p.done, m)
      modifies this`p, this`buffer
      ensures Valid() && old(Safe(View(), Producing(p.val, 0))) && View() == old(PushStep(View(), p.val, 0))
      ensures p == PPublish(old(p.w))
    {
      InvSafe(View(), Producing(p.val, 0));
      PushKeeps(View(), p.val, 0);
      buffer := buffer + [Version(Slot(k, p.w), p.ver + 2)];
      p := PPublish(p.w);
    }

    method StoreWriter()
      requires Valid() && p.PPublish?
      modifies this`p, this`buffer
      ensures Valid() && old(Safe(View(), Producing([], 0))) && View() == old(PushStep(View(), [], 0))
      ensures p == PIdle
    {
      InvSafe(View(), Producing(msgs[p.w], 0));
      PushKeeps(View(), [], 0);
      buffer := buffer + [Writer(p.w + 1)];
      p := PIdle;
    }

    /** One step of the producer, wherever it stands; an idle one begins to push val. */
    method ProducerMoves(val: seq<T>, word: nat)
      requires Valid() && |val| == m
      modifies this`p, this`buffer, this`msgs
      ensures Valid() && old(msgs) <= msgs
    {
      match p {
        case PIdle => LoadWriterForward(val);
        case PLoadVersion(_, _) => LoadVersionForward();
        case POpen(_, _, _) => StoreOddVersion();
        case PData(_, _, _, done) =>
          if All(done, m) {
            StoreEvenVersion();
          } else if word < m && word !in done {
            StoreWord(word);
          }
        case PPublish(_) => StoreWriter();
      }
    }

    // -------------------------------------------------------------- memory and newcomers

    /** The oldest store in the buffer, if any, reaches memory. */
    method DrainOne()
      requires Valid()
      modifies this`writer, this`buffer, this`at, versions, data
      ensures Valid() && Later(old(at), at)
      ensures if old(buffer) == [] then View() == old(View())
              else old(Safe(View(), Drain)) && View() == old(DrainStep(View()))
    {
      if buffer != [] {
        InvSafe(View(), Drain);
        DrainKeeps(View());
        DrainLater(View());
        at := Advance(at, buffer[0]);
        match buffer[0] {
          case Version(slot, v) => versions[slot] := v;
          case Data(slot, i, x) => data[slot] := data[slot][i := x];
          case Writer(w) => writer := w;
        }
        buffer := buffer[1..];
      }
    }

    /** `make_consumer`: a consumer begins with the message that `writer` names in memory. */
    method MakeConsumer() returns (id: nat)
      requires Valid()
      modifies this`consumers
      ensures Valid() && id == |old(consumers)| && View() == old(Step(View(), SpmcQueue.MakeConsumer))
      ensures consumers == old(consumers) + [Consumer(writer, CIdle, writer, [])]
    {
      NewConsumer(View());
      id := |consumers|;
      consumers := consumers + [Consumer(writer, CIdle, writer, [])];
    }

    // -------------------------------------------------------------- a consumer's accesses

    /** The first version load decides between nothing yet, too slow, and a copy. */
    method LoadFirstVersion(id: nat) returns (v1: nat)
      requires Valid() && id < |consumers| && consumers[id].place.CIdle?
      modifies this`consumers
      ensures Valid() && old(Safe(View(), Popping(id, 0)))
      ensures consumers == old(consumers)[id := old(PopStep(View(), id, 0))]
      ensures var c := old(consumers[id]);
              && (v1 < Expected(k, c.reader) ==> consumers[id] == c && !Published(at, c.reader))
              && (v1 > Expected(k, c.reader) ==> consumers[id] == c.(place := CAborted) && Begun(at, c.reader + Pow2(k)))
              && (v1 == Expected(k, c.reader) ==> consumers[id] == c.(place := CCopy(map[])))
    {
      InvSafe(View(), Popping(id, 0));
      PopKeeps(View(), id, 0);
      EmptyExactly(View(), id, 0);
      AbortsExactly(View(), id, 0);
      var c := consumers[id];
      v1 := versions[Slot(k, c.reader)];
      consumers := consumers[id :=
        if v1 > Expected(k, c.reader) then c.(place := CAborted)
        else if v1 < Expected(k, c.reader) then c
        else c.(place := CCopy(map[]))];
    }

    method LoadWord(id: nat, word: nat)
      requires Valid() && id < |consumers| && consumers[id].place.CCopy?
      requires word < m && word !in consumers[id].place.temp
      modifies this`consumers
      ensures Valid() && old(Safe(View(), Popping(id, word)))
      ensures consumers == old(consumers)[id := old(PopStep(View(), id, word))]
      ensures var c, d := old(consumers[id]), consumers[id];
              && d == c.(place := d.place) && d.place.CCopy? && d.place.temp.Keys == c.place.temp.Keys + {word}
    {
      InvSafe(View(), Popping(id, word));
      PopKeeps(View(), id, word);
      var c := consumers[id];
      assert !All(c.place.temp.Keys, m);
      consumers := consumers[id := c.(place := CCopy(c.place.temp[word := data[Slot(k, c.reader)][word]]))];
    }

    /** The second version load accepts the copy, which then is the message wanted, or gives up. */
    method LoadSecondVersion(id: nat) returns (v2: nat)
      requires Valid() && id < |consumers| && consumers[id].place.CCopy? && All(consumers[id].place.temp.Keys, m)
      modifies this`consumers
      ensures Valid() && old(Safe(View(), Popping(id, 0)))
      ensures consumers == old(consumers)[id := old(PopStep(View(), id, 0))]
      ensures var c := old(consumers[id]);
              && (v2 == Expected(k, c.reader) ==>
                  && c.reader < |msgs| && Copy(c.place.temp, m) == msgs[c.reader]
                  && consumers[id] == Consumer(c.reader + 1, CIdle, c.start, c.got + [msgs[c.reader]]))
              && (v2 != Expected(k, c.reader) ==>
                  consumers[id] == c.(place := CAborted) && Begun(at, c.reader + Pow2(k)))
    {
      InvSafe(View(), Popping(id, 0));
      PopKeeps(View(), id, 0);
      AbortsExactly(View(), id, 0);
      var c := consumers[id];
      v2 := versions[Slot(k, c.reader)];
      if v2 == Expected(k, c.reader) {
        NoTornReads(View(), id, 0);
        var temp := Copy(c.place.temp, m);
        consumers := consumers[id := Consumer(c.reader + 1, CIdle, c.start, c.got + [temp])];
      } else {
        consumers := consumers[id := c.(place := CAborted)];
      }
    }

    /** One step of a consumer, wherever it stands; one that has aborted makes none. */
    method ConsumerMoves(id: nat, word: nat)
      requires Valid() && id < |consumers|
      modifies this`consumers
      ensures Valid() && |consumers| == |old(consumers)|
      ensures forall j | 0 <= j < |consumers| && j != id :: consumers[j] == old(consumers)[j]
    {
      match consumers[id].place {
        case CIdle => var _ := LoadFirstVersion(id);
        case CCopy(temp) =>
          if All(temp.Keys, m) {
            var _ := LoadSecondVersion(id);
          } else if word < m && word !in temp {
            LoadWord(id, word);
          }
        case CAborted =>
      }
    }

    // -------------------------------------------------------------- the other threads

    /** Everybody but the producer runs: stores drain, consumers come and pop. */
    method OthersRun()
      requires Valid()
      modifies this`writer, this`buffer, this`at, this`consumers, versions, data
      ensures Valid() && Later(old(at), at)
    {
      var n: nat := *;
      while n > 0
        invariant Valid() && Later(old(at), at)
      {
        var id: nat, word: nat, what: nat := *, *, *;
        if what == 0 {
          DrainOne();
        } else if what == 1 {
          var _ := MakeConsumer();
        } else if id < |consumers| {
          ConsumerMoves(id, word);
        }
        n := n - 1;
      }
    }

    /** Everybody but one consumer runs: the producer pushes too. */
    method RestRuns(me: nat)
      requires Valid() && me < |consumers|
      modifies this, versions, data
      ensures Valid() && Later(old(at), at) && old(msgs) <= msgs
      ensures |old(consumers)| <= |consumers| && consumers[me] == old(consumers)[me]
    {
      var n: nat := *;
      while n > 0
        invariant Valid() && Later(old(at), at) && old(msgs) <= msgs
        invariant |old(consumers)| <= |consumers| && consumers[me] == old(consumers)[me]
      {
        var id: nat, word: nat, what: nat := *, *, *;
        var val: seq<T> := *;
        if what == 0 {
          DrainOne();
        } else if what == 1 {
          var _ := MakeConsumer();
        } else if what == 2 && |val| == m {
          ProducerMoves(val, word);
        } else if id < |consumers| && id != me {
          ConsumerMoves(id, word);
        }
        n := n - 1;
      }
    }

    // -------------------------------------------------------------- the operations

    /** `slot.data = val`, word by word, while everybody else runs. */
    method StoreMessage()
      requires Valid() && p.PData? && p.done == {}
      modifies this`p, this`writer, this`buffer, this`at, this`consumers, versions, data
      ensures Valid() && p.PData? && All(p.done, m) && Later(old(at), at)
    {
      var i := 0;
      while i < m
        invariant 0 <= i <= m && Valid() && Later(old(at), at)
        invariant p.PData? && forall j: nat :: j in p.done <==> j < i
      {
        StoreWord(i);
        OthersRun();
        i := i + 1;
      }
    }

    /** A push appends its message, whatever the consumers do; it never waits and never fails. */
    method Push(val: seq<T>)
      requires Valid() && p.PIdle? && |val| == m
      modifies this, versions, data
      ensures Valid() && p.PIdle? && msgs == old(msgs) + [val] && Later(old(at), at)
    {
      BeginPush(val);
      StoreMessage();
      StoreEvenVersion();
      OthersRun();
      StoreWriter();
    }

    /** Lines 82-86. */
    method BeginPush(val: seq<T>)
      requires Valid() && p.PIdle? && |val| == m
      modifies this, versions, data
      ensures Valid() && p.PData? && p.done == {} && msgs == old(msgs) + [val] && Later(old(at), at)
    {
      LoadWriterForward(val);
      OthersRun();
      LoadVersionForward();
      OthersRun();
      StoreOddVersion();
      OthersRun();
    }

    /** `T temp = data`, word by word, while everybody else runs. */
    method CopyMessage(id: nat)
      requires Valid() && id < |consumers| && consumers[id].place == CCopy(map[])
      modifies this, versions, data
      ensures Valid() && id < |consumers| && old(msgs) <= msgs && Later(old(at), at)
      ensures var c, d := old(consumers[id]), consumers[id];
              d == c.(place := d.place) && d.place.CCopy? && All(d.place.temp.Keys, m)
    {
      ghost var c := consumers[id];
      var i := 0;
      while i < m
        invariant 0 <= i <= m && Valid() && id < |consumers| && old(msgs) <= msgs && Later(old(at), at)
        invariant consumers[id] == c.(place := consumers[id].place)
        invariant consumers[id].place.CCopy? && forall j: nat :: j in consumers[id].place.temp <==> j < i
      {
        LoadWord(id, i);
        RestRuns(id);
        i := i + 1;
      }
    }

    /**
     A pop returns message number `reader`, whole, and steps on; or answers that it was not published
     when the call began; or gives up for good because the push one lap ahead of it has begun.
     */
    method Pop(id: nat) returns (r: Answer<T>)
      requires Valid() && id < |consumers| && consumers[id].place.CIdle?
      modifies this, versions, data
      ensures Valid() && id < |consumers| && old(msgs) <= msgs && Later(old(at), at)
      ensures var c, d := old(consumers[id]), consumers[id];
              && (r.Got? ==> c.reader < |msgs| && r.msg == msgs[c.reader]
                             && d == Consumer(c.reader + 1, CIdle, c.start, c.got + [r.msg]))
              && (r.NotYet? ==> d == c && !Published(old(at), c.reader))
              && (r.TooSlow? ==> d == c.(place := CAborted) && Begun(at, c.reader + Pow2(k)))
    {
      var v1 := LoadFirstVersion(id);
      if v1 > Expected(k, consumers[id].reader) {
        return TooSlow;
      }
      if v1 < Expected(k, consumers[id].reader) {
        return NotYet;
      }
      RestRuns(id);
      CopyMessage(id);
      var expected := Expected(k, consumers[id].reader);
      var temp := Copy(consumers[id].place.temp, m);
      var v2 := LoadSecondVersion(id);
      if v2 != expected {
        assert consumers[id] == old(consumers[id]).(place := CAborted);
        return TooSlow;
      }
      return Got(temp);
    }
  }
}
