/**
 The single-producer fan-out queue of include/spmc_queue_trivially_copiable.hpp as a machine of
 micro-steps on a processor with total store order.

 The producer's stores enter a FIFO store buffer and reach memory one at a time, whenever the processor
 likes; its own loads see the buffer first. A message is several words, stored one at a time and copied
 one at a time, each in any order, so a consumer may well copy words of different messages. Any number
 of consumers run; they store nothing that is shared.

 `msgs` is every message pushed so far, the one being pushed included, and `at` says how far the stores
 have reached memory. Neither decides a branch.
 */
module SpmcQueue {
  import opened Words

  /** A store on its way to memory. */
  datatype Store<T> = Version(slot: nat, v: nat) | Data(slot: nat, k: nat, x: T) | Writer(w: nat)

  datatype Memory<T> = Memory(versions: seq<nat>, data: seq<seq<T>>, writer: nat)

  /** Where the producer stands inside `push`. */
  datatype Producer<T> =
    | PIdle
    | PLoadVersion(val: seq<T>, w: nat)
    | POpen(val: seq<T>, w: nat, ver: nat)                     // about to store slot_ver + 1
    | PData(val: seq<T>, w: nat, ver: nat, done: set<nat>)     // storing the words, then slot_ver + 2
    | PPublish(w: nat)                                         // about to store writer

  /** Where a consumer stands inside `pop`: outside, copying, or aborted. */
  datatype Place<T> = CIdle | CCopy(temp: map<nat, T>) | CAborted

  /** `reader` is the message it wants next; `start` and `got` record where it began and what it has returned. */
  datatype Consumer<T> = Consumer(reader: nat, place: Place<T>, start: nat, got: seq<seq<T>>)

  /** How much of a message's stores has been done: none, opened with some words stored, or closed. */
  datatype Phase = Start | Open(done: set<nat>) | Closed

  /** All stores of the messages before i are done, and those of message i as far as `phase` says. */
  datatype Pos = Pos(i: nat, phase: Phase)

  datatype State<T> = State(
    k: nat,              // there are 2^k slots
    m: nat,              // words in a message
    mem: Memory<T>,
    buffer: seq<Store<T>>,
    p: Producer<T>,
    consumers: seq<Consumer<T>>,
    msgs: seq<seq<T>>,
    at: Pos)

  /** Who moves next; `word` picks the word to store or copy. */
  datatype Action<T> =
    | Producing(val: seq<T>, word: nat)
    | Drain
    | MakeConsumer
    | Popping(id: nat, word: nat)

  /** What a consumer's caller sees. */
  datatype Event<T> = Tau | Empty(id: nat) | Delivered(id: nat, msg: seq<T>) | Aborted(id: nat)

  // ---------------------------------------------------------------- memory and the store buffer

  predicate InMemory<T>(mem: Memory<T>, st: Store<T>) {
    match st
    case Version(slot, _) => slot < |mem.versions|
    case Data(slot, k, _) => slot < |mem.data| && k < |mem.data[slot]|
    case Writer(_) => true
  }

  function Apply<T>(mem: Memory<T>, st: Store<T>): Memory<T>
    requires InMemory(mem, st)
  {
    match st
    case Version(slot, v) => mem.(versions := mem.versions[slot := v])
    case Data(slot, k, x) => mem.(data := mem.data[slot := mem.data[slot][k := x]])
    case Writer(w) => mem.(writer := w)
  }

  /** The producer's load of `writer`: the youngest buffered store to it, or memory. */
  function LoadWriter<T>(mem: Memory<T>, buffer: seq<Store<T>>): nat {
    if buffer == [] then mem.writer
    else
      var last := buffer[|buffer| - 1];
      if last.Writer? then last.w else LoadWriter(mem, buffer[..|buffer| - 1])
  }

  /** The producer's load of a slot's version: the youngest buffered store to it, or memory. */
  function LoadVersion<T>(mem: Memory<T>, buffer: seq<Store<T>>, slot: nat): nat
    requires slot < |mem.versions|
  {
    if buffer == [] then mem.versions[slot]
    else
      var last := buffer[|buffer| - 1];
      if last.Version? && last.slot == slot then last.v else LoadVersion(mem, buffer[..|buffer| - 1], slot)
  }

  // ---------------------------------------------------------------- steps

  /** `w & wrap_mask`. */
  function Slot(k: nat, w: nat): nat {
    And(w, Pow2(k) - 1)
  }

  /** `reader >> countr_zero(buffer_size)`, and the version of a slot that holds this message. */
  function Expected(k: nat, reader: nat): nat {
    2 * (Shr(reader, k) + 1)
  }

  predicate All(done: set<nat>, m: nat) {
    forall k: nat | k < m :: k in done
  }

  predicate Safe<T>(s: State<T>, a: Action<T>) {
    match a
    case Producing(val, _) =>
      (match s.p
       case PIdle => |val| == s.m
       case PLoadVersion(_, w) => Slot(s.k, w) < |s.mem.versions|
       case POpen(_, _, _) => true
       case PData(v, _, _, _) => |v| == s.m
       case PPublish(_) => true)
    case Drain => s.buffer != [] && InMemory(s.mem, s.buffer[0])
    case MakeConsumer => true
    case Popping(id, _) =>
      && id < |s.consumers| && !s.consumers[id].place.CAborted?
      && var slot := Slot(s.k, s.consumers[id].reader);
      && slot < |s.mem.versions| && slot < |s.mem.data| && |s.mem.data[slot]| == s.m
  }

  function PushStep<T>(s: State<T>, val: seq<T>, word: nat): State<T>
    requires Safe(s, Producing(val, word))
  {
    match s.p
    case PIdle => s.(p := PLoadVersion(val, LoadWriter(s.mem, s.buffer)), msgs := s.msgs + [val])
    case PLoadVersion(v, w) => s.(p := POpen(v, w, LoadVersion(s.mem, s.buffer, Slot(s.k, w))))
    case POpen(v, w, ver) =>
      s.(buffer := s.buffer + [Version(Slot(s.k, w), ver + 1)], p := PData(v, w, ver, {}))
    case PData(v, w, ver, done) =>
      if All(done, s.m) then
        s.(buffer := s.buffer + [Version(Slot(s.k, w), ver + 2)], p := PPublish(w))
      else if word < s.m then
        s.(buffer := s.buffer + [Data(Slot(s.k, w), word, v[word])], p := PData(v, w, ver, done + {word}))
      else s
    case PPublish(w) => s.(buffer := s.buffer + [Writer(w + 1)], p := PIdle)
  }

  /** The oldest buffered store reaches memory. */
  function DrainStep<T>(s: State<T>): State<T>
    requires Safe(s, Drain)
  {
    s.(mem := Apply(s.mem, s.buffer[0]), buffer := s.buffer[1..], at := Advance(s.at, s.buffer[0]))
  }

  function PopStep<T>(s: State<T>, id: nat, word: nat): Consumer<T>
    requires Safe(s, Popping(id, word))
  {
    var c := s.consumers[id];
    var slot := Slot(s.k, c.reader);
    match c.place
    case CIdle =>
      if s.mem.versions[slot] > Expected(s.k, c.reader) then c.(place := CAborted)
      else if s.mem.versions[slot] < Expected(s.k, c.reader) then c
      else c.(place := CCopy(map[]))
    case CCopy(temp) =>
      if All(temp.Keys, s.m) then
        if s.mem.versions[slot] != Expected(s.k, c.reader) then c.(place := CAborted)
        else c.(reader := c.reader + 1, place := CIdle, got := c.got + [Copy(temp, s.m)])
      else if word < s.m then c.(place := CCopy(temp[word := s.mem.data[slot][word]]))
      else c
    case CAborted => c
  }

  function Copy<T>(temp: map<nat, T>, m: nat): (r: seq<T>)
    requires All(temp.Keys, m)
    ensures |r| == m && forall k: nat | k < m :: r[k] == temp[k]
  {
    seq(m, k requires 0 <= k < m => temp[k])
  }

  function Step<T>(s: State<T>, a: Action<T>): State<T>
    requires Safe(s, a)
  {
    match a
    case Producing(val, word) => PushStep(s, val, word)
    case Drain => DrainStep(s)
    case MakeConsumer => s.(consumers := s.consumers + [Consumer(s.mem.writer, CIdle, s.mem.writer, [])])
    case Popping(id, word) => s.(consumers := s.consumers[id := PopStep(s, id, word)])
  }

  function EventOf<T>(s: State<T>, a: Action<T>): Event<T>
    requires Safe(s, a)
  {
    match a
    case Popping(id, word) =>
      var c, d := s.consumers[id], PopStep(s, id, word);
      if d.place.CAborted? then Aborted(id)
      else if c.place.CIdle? && d.place.CIdle? then Empty(id)
      else if c.place.CCopy? && d.place.CIdle? && |d.got| > 0 then Delivered(id, d.got[|d.got| - 1])
      else Tau
    case _ => Tau
  }

  predicate Init<T>(s: State<T>) {
    && |s.mem.versions| == Pow2(s.k) && |s.mem.data| == Pow2(s.k) && s.m >= 1
    && (forall i | 0 <= i < Pow2(s.k) :: s.mem.versions[i] == 0 && |s.mem.data[i]| == s.m)
    && s.mem.writer == 0 && s.buffer == [] && s.p == PIdle && s.consumers == [] && s.msgs == [] && s.at == Pos(0, Start)
  }

  // ---------------------------------------------------------------- positions in the producer's program

  /** Where a store leads. */
  function Advance<T>(at: Pos, st: Store<T>): Pos {
    match st
    case Version(_, _) => if at.phase.Start? then Pos(at.i, Open({})) else Pos(at.i, Closed)
    case Data(_, k, _) => Pos(at.i, Open((if at.phase.Open? then at.phase.done else {}) + {k}))
    case Writer(_) => Pos(at.i + 1, Start)
  }

  /** The store is one that `push` may do next at this point: the seqlock's order of stores. */
  ghost predicate Next<T>(n: nat, m: nat, msgs: seq<seq<T>>, at: Pos, st: Store<T>)
    requires n >= 1
  {
    && at.i < |msgs| && |msgs[at.i]| == m
    && match st
       case Version(slot, v) =>
         && slot == at.i % n
         && (match at.phase
             case Start => v == 2 * (at.i / n) + 1
             case Open(done) => v == 2 * (at.i / n) + 2 && All(done, m)
             case Closed => false)
       case Data(slot, k, x) => slot == at.i % n && at.phase.Open? && k < m && x == msgs[at.i][k]
       case Writer(w) => at.phase.Closed? && w == at.i + 1
  }

  /** The buffered stores continue the producer's program from `at`, in order. */
  ghost predicate Path<T>(n: nat, m: nat, msgs: seq<seq<T>>, at: Pos, buffer: seq<Store<T>>)
    requires n >= 1
    decreases |buffer|
  {
    buffer == [] || (Next(n, m, msgs, at, buffer[0]) && Path(n, m, msgs, Advance(at, buffer[0]), buffer[1..]))
  }

  function End<T>(at: Pos, buffer: seq<Store<T>>): Pos
    decreases |buffer|
  {
    if buffer == [] then at else End(Advance(at, buffer[0]), buffer[1..])
  }

  /** Where the producer's program is after all it has issued. */
  function Issued<T>(p: Producer<T>, count: nat): Pos {
    var last := if count == 0 then 0 else count - 1;
    match p
    case PIdle => Pos(count, Start)
    case PLoadVersion(_, _) => Pos(last, Start)
    case POpen(_, _, _) => Pos(last, Start)
    case PData(_, _, _, done) => Pos(last, Open(done))
    case PPublish(_) => Pos(last, Closed)
  }
}
