/** WaitFreeConcurrentRingBuffer: one producer thread and one consumer thread,
    no lock. Every atomic load, every slot access and every atomic store is a
    step of its own, and the memory is the release/acquire one, not a
    sequentially consistent one:

    - `heads` and `tails` hold every value ever stored in the two atomics. A
      thread sees its own last store; an acquire load of the other side's
      atomic may return any stored value not older than the last one it saw.
    - A store carries how many plain slot accesses its thread had made. Loading
      it makes those accesses visible.
    - A plain read of a slot may return any write to that slot that is not
      hidden by a later write already visible to the reader.

    None of this mentions queue positions; that the indices are positions
    modulo the size is part of what is proved.
  */
module WaitFree {
  import opened Modular

  /** A value stored in an atomic index, with the plain accesses it publishes. */
  datatype Store = Store(index: nat, view: nat)

  /** A plain write to a slot. */
  datatype Cell<T> = Cell(slot: nat, value: T)

  /** Where a slot read may take its value from. */
  datatype Source = Initial | Written(n: nat)

  datatype Producer<T> =
    | PutIdle
    | PutLoading(x: T, head: nat)
    | PutChecking(x: T, head: nat, tail: nat, loadedAt: nat)   // loadedAt: tails stored when the load ran
    | PutWriting(x: T, head: nat, next: nat)
    | PutStoring(x: T, head: nat, next: nat)

  datatype Consumer<T> =
    | GetIdle
    | GetLoading(tail: nat)
    | GetChecking(tail: nat, head: nat, loadedAt: nat)         // loadedAt: heads stored when the load ran
    | GetReading(tail: nat)
    | GetStoring(tail: nat, x: T)

  datatype State<T> = State(
    size: nat,
    blank: T,                 // what the slots are constructed with
    heads: seq<Store>,
    tails: seq<Store>,
    writeLog: seq<Cell<T>>,     // slot writes, in program order of the producer
    readLog: seq<nat>,          // slots read, in program order of the consumer
    prod: Producer<T>,
    cons: Consumer<T>,
    prodSeen: nat,            // position in `tails` of the last value loaded
    prodView: nat,            // slot reads the producer knows to have happened
    consSeen: nat,            // position in `heads` of the last value loaded
    consView: nat,            // slot writes the consumer knows to have happened
    puts: seq<T>,             // history: arguments of the puts that returned true
    gets: seq<T>)             // history: results of the gets that returned true

  datatype Action<T> =
    | PutBegin(x: T)
    | PutLoad(k: nat)
    | PutCheck
    | PutWrite
    | PutStore
    | GetBegin
    | GetLoad(k: nat)
    | GetCheck
    | GetRead(from: Source)
    | GetStore

  /** May a read of `slot` by the consumer return this write? */
  ghost predicate Visible<T>(s: State<T>, slot: nat, from: Source) {
    match from
    case Initial => forall i :: 0 <= i < |s.writeLog| && i < s.consView ==> s.writeLog[i].slot != slot
    case Written(n) =>
      && n < |s.writeLog| && s.writeLog[n].slot == slot
      && forall i :: n < i < |s.writeLog| && i < s.consView ==> s.writeLog[i].slot != slot
  }

  function ValueOf<T>(s: State<T>, from: Source): T
    requires from.Written? ==> from.n < |s.writeLog|
  {
    if from.Initial? then s.blank else s.writeLog[from.n].value
  }

  ghost predicate Enabled<T>(s: State<T>, a: Action<T>) {
    && s.size > 0 && s.heads != [] && s.tails != []
    && match a
       case PutBegin(_) => s.prod.PutIdle?
       case PutLoad(k) => s.prod.PutLoading? && s.prodSeen <= k < |s.tails|
       case PutCheck => s.prod.PutChecking?
       case PutWrite => s.prod.PutWriting?
       case PutStore => s.prod.PutStoring?
       case GetBegin => s.cons.GetIdle?
       case GetLoad(k) => s.cons.GetLoading? && s.consSeen <= k < |s.heads|
       case GetCheck => s.cons.GetChecking?
       case GetRead(from) => s.cons.GetReading? && Visible(s, s.cons.tail, from)
       case GetStore => s.cons.GetStoring?
  }

  function Max(a: nat, b: nat): nat {
    if a < b then b else a
  }

  ghost function Apply<T>(s: State<T>, a: Action<T>): State<T>
    requires Enabled(s, a)
  {
    match a
    case PutBegin(x) => s.(prod := PutLoading(x, s.heads[|s.heads| - 1].index))
    case PutLoad(k) =>
      s.(prod := PutChecking(s.prod.x, s.prod.head, s.tails[k].index, |s.tails| - 1),
         prodSeen := k, prodView := Max(s.prodView, s.tails[k].view))
    case PutCheck =>
      var next := (s.prod.head + 1) % s.size;
      s.(prod := if next == s.prod.tail then PutIdle else PutWriting(s.prod.x, s.prod.head, next))
    case PutWrite =>
      s.(prod := PutStoring(s.prod.x, s.prod.head, s.prod.next),
         writeLog := s.writeLog + [Cell(s.prod.head, s.prod.x)])
    case PutStore =>
      s.(prod := PutIdle, heads := s.heads + [Store(s.prod.next, |s.writeLog|)], puts := s.puts + [s.prod.x])
    case GetBegin => s.(cons := GetLoading(s.tails[|s.tails| - 1].index))
    case GetLoad(k) =>
      s.(cons := GetChecking(s.cons.tail, s.heads[k].index, |s.heads| - 1),
         consSeen := k, consView := Max(s.consView, s.heads[k].view))
    case GetCheck =>
      s.(cons := if s.cons.tail == s.cons.head then GetIdle else GetReading(s.cons.tail))
    case GetRead(from) =>
      s.(cons := GetStoring(s.cons.tail, ValueOf(s, from)), readLog := s.readLog + [s.cons.tail])
    case GetStore =>
      s.(cons := GetIdle, tails := s.tails + [Store((s.cons.tail + 1) % s.size, |s.readLog|)],
         gets := s.gets + [s.cons.x])
  }

  ghost predicate Init<T>(s: State<T>) {
    && s.size > 0
    && s.heads == [Store(0, 0)] && s.tails == [Store(0, 0)]
    && s.writeLog == [] && s.readLog == []
    && s.prod == PutIdle && s.cons == GetIdle
    && s.prodSeen == 0 && s.prodView == 0 && s.consSeen == 0 && s.consView == 0
    && s.puts == [] && s.gets == []
  }

  ghost predicate Runnable<T>(s: State<T>, acts: seq<Action<T>>)
    decreases |acts|
  {
    acts == [] || (Enabled(s, acts[0]) && Runnable(Apply(s, acts[0]), acts[1..]))
  }

  ghost function Exec<T>(s: State<T>, acts: seq<Action<T>>): State<T>
    requires Runnable(s, acts)
    decreases |acts|
  {
    if acts == [] then s else Exec(Apply(s, acts[0]), acts[1..])
  }

  // ---- invariant -----------------------------------------------------------

  /** The n-th value stored in an index is n modulo the size, and it publishes
      exactly n slot accesses. */
  ghost predicate Positions(stores: seq<Store>, size: nat)
    requires size > 0
  {
    stores != [] && forall n {:trigger stores[n]} :: 0 <= n < |stores| ==> stores[n] == Store(n % size, n)
  }

  ghost function HeadPos<T>(s: State<T>): int { |s.heads| - 1 }
  ghost function TailPos<T>(s: State<T>): int { |s.tails| - 1 }

  ghost predicate Shared<T>(s: State<T>) {
    && s.size > 0
    && Positions(s.heads, s.size) && Positions(s.tails, s.size)
    && |s.puts| == HeadPos(s)
    && TailPos(s) <= HeadPos(s) && s.gets == s.puts[..TailPos(s)]
    && |s.writeLog| == HeadPos(s) + (if s.prod.PutStoring? then 1 else 0)
    && (forall n {:trigger s.writeLog[n]} :: 0 <= n < |s.writeLog| ==> s.writeLog[n].slot == n % s.size)
    && (forall n {:trigger s.puts[n]} :: 0 <= n < |s.puts| ==> s.writeLog[n].value == s.puts[n])
    && |s.readLog| == TailPos(s) + (if s.cons.GetStoring? then 1 else 0)
    && (forall n {:trigger s.readLog[n]} :: 0 <= n < |s.readLog| ==> s.readLog[n] == n % s.size)
  }

  /** The snapshots bracket the real positions within one lap. */
  ghost predicate Bracket<T>(s: State<T>) {
    && s.prodView == s.prodSeen && s.consView == s.consSeen
    && s.prodSeen <= TailPos(s) <= s.consSeen <= HeadPos(s) < s.prodSeen + s.size
  }

  ghost predicate ProducerOk<T>(s: State<T>)
    requires s.size > 0 && s.heads != []
  {
    match s.prod
    case PutIdle => true
    case PutLoading(_, head) => head == HeadPos(s) % s.size
    case PutChecking(_, head, tail, at) =>
      head == HeadPos(s) % s.size && tail == s.prodSeen % s.size && s.prodSeen <= at <= TailPos(s)
    case PutWriting(_, head, next) =>
      head == HeadPos(s) % s.size && next == (HeadPos(s) + 1) % s.size && HeadPos(s) + 1 < s.prodSeen + s.size
    case PutStoring(x, head, next) =>
      && head == HeadPos(s) % s.size && next == (HeadPos(s) + 1) % s.size && HeadPos(s) + 1 < s.prodSeen + s.size
      && |s.writeLog| == HeadPos(s) + 1 && s.writeLog[HeadPos(s)].value == x
  }

  ghost predicate ConsumerOk<T>(s: State<T>)
    requires s.size > 0 && s.tails != []
  {
    match s.cons
    case GetIdle => true
    case GetLoading(tail) => tail == TailPos(s) % s.size
    case GetChecking(tail, head, at) =>
      tail == TailPos(s) % s.size && head == s.consSeen % s.size && s.consSeen <= at <= HeadPos(s)
    case GetReading(tail) => tail == TailPos(s) % s.size && TailPos(s) < s.consSeen
    case GetStoring(tail, x) => tail == TailPos(s) % s.size && TailPos(s) < s.consSeen && TailPos(s) < |s.puts| && x == s.puts[TailPos(s)]
  }

  ghost predicate Inv<T>(s: State<T>) {
    Shared(s) && Bracket(s) && ProducerOk(s) && ConsumerOk(s)
  }

  /** A slot read has exactly one write it may return: the oldest element. */
  lemma ReadIsDetermined<T>(s: State<T>, from: Source)
    requires Inv(s) && s.cons.GetReading? && Visible(s, s.cons.tail, from)
    ensures from == Written(TailPos(s)) && TailPos(s) < |s.puts| && ValueOf(s, from) == s.puts[TailPos(s)]
  {
    var t := TailPos(s);
    assert s.writeLog[t].slot == s.cons.tail && s.puts[t] == s.writeLog[t].value;
    if from.Written? {
      assert s.writeLog[from.n].slot == from.n % s.size;
      if from.n > t {
        SameIndex(t, from.n, s.size);
      }
    }
  }

  lemma ProducerChecks<T>(s: State<T>)
    requires Inv(s) && Enabled(s, PutCheck)
    ensures Inv(Apply(s, PutCheck))
  {
    NextIndex(HeadPos(s), s.size);
    SameIndex(s.prodSeen, HeadPos(s) + 1, s.size);
    LapIsSameIndex(s.prodSeen, s.size);
  }

  lemma ProducerStores<T>(s: State<T>)
    requires Inv(s) && Enabled(s, PutStore)
    ensures Inv(Apply(s, PutStore))
  {
  }

  lemma ProducerStep<T>(s: State<T>, a: Action<T>)
    requires Inv(s) && Enabled(s, a)
    requires a.PutBegin? || a.PutLoad? || a.PutCheck? || a.PutWrite? || a.PutStore?
    ensures Inv(Apply(s, a))
  {
    match a
    case PutCheck => ProducerChecks(s);
    case PutStore => ProducerStores(s);
    case _ =>
  }

  lemma ConsumerReads<T>(s: State<T>, from: Source)
    requires Inv(s) && Enabled(s, GetRead(from))
    ensures Inv(Apply(s, GetRead(from)))
  {
    ReadIsDetermined(s, from);
  }

  lemma ConsumerStores<T>(s: State<T>)
    requires Inv(s) && Enabled(s, GetStore)
    ensures Inv(Apply(s, GetStore))
  {
    NextIndex(TailPos(s), s.size);
    assert s.puts[..TailPos(s) + 1] == s.puts[..TailPos(s)] + [s.puts[TailPos(s)]];
  }

  lemma ConsumerStep<T>(s: State<T>, a: Action<T>)
    requires Inv(s) && Enabled(s, a)
    requires a.GetBegin? || a.GetLoad? || a.GetCheck? || a.GetRead? || a.GetStore?
    ensures Inv(Apply(s, a))
  {
    match a
    case GetRead(from) => ConsumerReads(s, from);
    case GetStore => ConsumerStores(s);
    case _ =>
  }

  lemma StepKeepsInv<T>(s: State<T>, a: Action<T>)
    requires Inv(s) && Enabled(s, a)
    ensures Inv(Apply(s, a)) && Apply(s, a).size == s.size
  {
    if a.PutBegin? || a.PutLoad? || a.PutCheck? || a.PutWrite? || a.PutStore? {
      ProducerStep(s, a);
    } else {
      ConsumerStep(s, a);
    }
  }

  lemma {:induction false} RunKeepsInv<T>(s: State<T>, acts: seq<Action<T>>)
    requires Inv(s) && Runnable(s, acts)
    ensures Inv(Exec(s, acts)) && Exec(s, acts).size == s.size
    decreases |acts|
  {
    if acts != [] {
      StepKeepsInv(s, acts[0]);
      RunKeepsInv(Apply(s, acts[0]), acts[1..]);
    }
  }

  lemma InitHasInv<T>(s: State<T>)
    requires Init(s)
    ensures Inv(s)
  {
  }

  // ---- what follows --------------------------------------------------------

  // The calls as their caller sees them, read off the actions of a run alone.

  datatype Option<T> = None | Some(value: T)

  /** The argument of the last put that was begun. */
  ghost function LastArgument<T>(acts: seq<Action<T>>): Option<T> {
    if acts == [] then None else
      var n := |acts| - 1;
      if acts[n].PutBegin? then Some(acts[n].x) else LastArgument(acts[..n])
  }

  /** The arguments of the puts that have come to their end, in order. A put
      whose check was refused never comes to its PutStore. */
  ghost function PutArguments<T>(acts: seq<Action<T>>): seq<Option<T>> {
    if acts == [] then [] else
      var n := |acts| - 1;
      if acts[n].PutStore? then PutArguments(acts[..n]) + [LastArgument(acts[..n])] else PutArguments(acts[..n])
  }

  /** How many gets have come to their end. */
  ghost function GetsDone<T>(acts: seq<Action<T>>): nat {
    if acts == [] then 0 else
      var n := |acts| - 1;
      GetsDone(acts[..n]) + if acts[n].GetStore? then 1 else 0
  }

  ghost function Somes<T>(xs: seq<T>): (r: seq<Option<T>>)
    ensures |r| == |xs| && forall i :: 0 <= i < |xs| ==> r[i] == Some(xs[i])
  {
    seq(|xs|, i requires 0 <= i < |xs| => Some(xs[i]))
  }

  /** The histories of the state are those of the actions, and a put under way
      carries the argument it was begun with. */
  ghost predicate Recorded<T>(s: State<T>, acts: seq<Action<T>>) {
    && Somes(s.puts) == PutArguments(acts) && |s.gets| == GetsDone(acts)
    && match s.prod
       case PutIdle => true
       case PutLoading(x, _) => LastArgument(acts) == Some(x)
       case PutChecking(x, _, _, _) => LastArgument(acts) == Some(x)
       case PutWriting(x, _, _) => LastArgument(acts) == Some(x)
       case PutStoring(x, _, _) => LastArgument(acts) == Some(x)
  }

  lemma StepIsRecorded<T>(s: State<T>, acts: seq<Action<T>>, a: Action<T>)
    requires Enabled(s, a) && Recorded(s, acts)
    ensures Recorded(Apply(s, a), acts + [a])
  {
    assert (acts + [a])[..|acts|] == acts;
    if a.PutStore? {
      assert Somes(s.puts + [s.prod.x]) == Somes(s.puts) + [Some(s.prod.x)];
    }
  }

  lemma {:induction false} RunIsRecorded<T>(s: State<T>, before: seq<Action<T>>, acts: seq<Action<T>>)
    requires Runnable(s, acts) && Recorded(s, before)
    ensures Recorded(Exec(s, acts), before + acts)
    decreases |acts|
  {
    if acts == [] {
      assert before + acts == before;
    } else {
      StepIsRecorded(s, before, acts[0]);
      RunIsRecorded(Apply(s, acts[0]), before + [acts[0]], acts[1..]);
      assert before + [acts[0]] + acts[1..] == before + acts;
    }
  }

  /** For every interleaving and every choice of stale loads: what has been put is
      the arguments of the puts that came to their end, what has been got is the
      first of them, one for each get that came to its end, and at most
      size - 1 are outstanding. */
  lemma QueueIsFifo<T>(s: State<T>, acts: seq<Action<T>>)
    requires Init(s) && Runnable(s, acts)
    ensures var e := Exec(s, acts); var args := PutArguments(acts);
            && Somes(e.puts) == args
            && GetsDone(acts) <= |args| <= GetsDone(acts) + s.size - 1
            && Somes(e.gets) == args[..GetsDone(acts)]
  {
    InitHasInv(s);
    RunKeepsInv(s, acts);
    RunIsRecorded(s, [], acts);
    assert [] + acts == acts;
  }

  /** No two slot accesses race: when the producer is about to write a slot,
      every earlier read of that slot is already visible to it and the consumer
      is not at that slot; when the consumer is about to read one, every write
      to it is already visible. */
  lemma SlotsDoNotRace<T>(s: State<T>, acts: seq<Action<T>>)
    requires Init(s) && Runnable(s, acts)
    ensures var e := Exec(s, acts);
            && (e.prod.PutWriting? ==>
                  && (forall n {:trigger e.readLog[n]} :: 0 <= n < |e.readLog| && e.readLog[n] == e.prod.head ==> n < e.prodView)
                  && (e.cons.GetReading? || e.cons.GetStoring? ==> e.cons.tail != e.prod.head))
            && (e.cons.GetReading? ==>
                  forall n {:trigger e.writeLog[n]} :: 0 <= n < |e.writeLog| && e.writeLog[n].slot == e.cons.tail ==> n < e.consView)
  {
    InitHasInv(s);
    RunKeepsInv(s, acts);
    var e := Exec(s, acts);
    if e.prod.PutWriting? {
      forall n {:trigger e.readLog[n]} | 0 <= n < |e.readLog| && e.readLog[n] == e.prod.head
        ensures n < e.prodView
      {
        SameIndex(n, HeadPos(e), e.size);
      }
      SameIndex(TailPos(e), HeadPos(e), e.size);
    }
    if e.cons.GetReading? {
      forall n {:trigger e.writeLog[n]} | 0 <= n < |e.writeLog| && e.writeLog[n].slot == e.cons.tail
        ensures n < e.consView
      {
        if n > TailPos(e) {
          SameIndex(TailPos(e), n, e.size);
        }
      }
    }
  }

  /** The test the producer is about to make turns its put down. */
  ghost predicate PutRefused<T>(s: State<T>) {
    Enabled(s, PutCheck) && Apply(s, PutCheck).prod.PutIdle?
  }

  ghost predicate GetRefused<T>(s: State<T>) {
    Enabled(s, GetCheck) && Apply(s, GetCheck).cons.GetIdle?
  }

  /** A put is refused exactly when the elements put exceed the gets it knows of
      by size - 1, and then the buffer was really full when the index was loaded
      if and only if the load was up to date. Dually for a refused get. */
  lemma RefusalMeansFullOrEmpty<T>(s: State<T>, acts: seq<Action<T>>)
    requires Init(s) && Runnable(s, acts)
    ensures var e := Exec(s, acts);
            && e.size == s.size && e.heads != [] && e.tails != []
            && (e.prod.PutChecking? ==>
                  && (PutRefused(e) <==> |e.puts| - e.prodSeen == s.size - 1)
                  && e.prodSeen <= e.prod.loadedAt <= |e.gets|
                  && (PutRefused(e) ==> (|e.puts| - e.prod.loadedAt == s.size - 1 <==> e.prodSeen == e.prod.loadedAt)))
            && (e.cons.GetChecking? ==>
                  && (GetRefused(e) <==> e.consSeen == |e.gets|)
                  && e.consSeen <= e.cons.loadedAt <= |e.puts|
                  && (GetRefused(e) ==> (e.cons.loadedAt == |e.gets| <==> e.consSeen == e.cons.loadedAt)))
  {
    InitHasInv(s);
    RunKeepsInv(s, acts);
    var e := Exec(s, acts);
    if e.prod.PutChecking? {
      PutVerdict(e);
    }
    if e.cons.GetChecking? {
      GetVerdict(e);
    }
  }

  /** The producer's test against what it loaded. */
  lemma PutVerdict<T>(s: State<T>)
    requires Inv(s) && s.prod.PutChecking?
    ensures PutRefused(s) <==> HeadPos(s) + 1 == s.prodSeen + s.size
  {
    NextIndex(HeadPos(s), s.size);
    SameIndex(s.prodSeen, HeadPos(s) + 1, s.size);
    LapIsSameIndex(s.prodSeen, s.size);
  }

  lemma GetVerdict<T>(s: State<T>)
    requires Inv(s) && s.cons.GetChecking?
    ensures GetRefused(s) <==> TailPos(s) == s.consSeen
  {
    SameIndex(TailPos(s), s.consSeen, s.size);
  }

  lemma OldestIsVisible<T>(s: State<T>)
    requires Inv(s) && s.cons.GetReading?
    ensures Visible(s, s.cons.tail, Written(TailPos(s)))
  {
    forall i | TailPos(s) < i < |s.writeLog| ensures s.writeLog[i].slot != s.cons.tail {
      SameIndex(TailPos(s), i, s.size);
    }
  }

  lemma Prepend<T>(s: State<T>, a: Action<T>, acts: seq<Action<T>>)
    requires Enabled(s, a) && Runnable(Apply(s, a), acts)
    ensures Runnable(s, [a] + acts) && Exec(s, [a] + acts) == Exec(Apply(s, a), acts)
  {
  }

  ghost predicate Idle<T>(s: State<T>) {
    Inv(s) && s.prod.PutIdle? && s.cons.GetIdle?
  }

  /** `e` is the outcome of some run from `s`. */
  ghost predicate Reaches<T(!new)>(s: State<T>, e: State<T>) {
    exists acts :: Runnable(s, acts) && Exec(s, acts) == e
  }

  lemma ReachesOne<T(!new)>(s: State<T>, a: Action<T>, e: State<T>)
    requires Enabled(s, a) && Reaches(Apply(s, a), e)
    ensures Reaches(s, e)
  {
    var acts :| Runnable(Apply(s, a), acts) && Exec(Apply(s, a), acts) == e;
    Prepend(s, a, acts);
  }

  lemma ReachesSelf<T(!new)>(s: State<T>)
    ensures Reaches(s, s)
  {
    assert Runnable(s, []) && Exec(s, []) == s;
  }

  lemma SoloWrite<T(!new)>(s: State<T>) returns (e: State<T>)
    requires Inv(s) && s.prod.PutWriting? && s.cons.GetIdle?
    ensures Reaches(s, e) && Idle(e) && e.size == s.size && e.prodSeen == s.prodSeen
    ensures e.gets == s.gets && e.puts == s.puts + [s.prod.x]
  {
    hide Reaches;
    var s1 := Apply(s, PutWrite);
    StepKeepsInv(s, PutWrite);
    e := Apply(s1, PutStore);
    StepKeepsInv(s1, PutStore);
    ReachesSelf(e);
    ReachesOne(s1, PutStore, e);
    ReachesOne(s, PutWrite, e);
  }

  /** Left alone, a put succeeds exactly when fewer than size - 1 are stored. */
  lemma SoloPut<T(!new)>(s: State<T>, x: T) returns (e: State<T>)
    requires Idle(s)
    ensures Reaches(s, e) && Idle(e) && e.size == s.size && e.gets == s.gets && e.prodSeen == |s.gets|
    ensures e.puts == if |s.puts| - |s.gets| < s.size - 1 then s.puts + [x] else s.puts
  {
    hide Reaches;
    var s1 := Apply(s, PutBegin(x));
    StepKeepsInv(s, PutBegin(x));
    var s2 := Apply(s1, PutLoad(|s.gets|));
    StepKeepsInv(s1, PutLoad(|s.gets|));
    var s3 := Apply(s2, PutCheck);
    StepKeepsInv(s2, PutCheck);
    PutVerdict(s2);
    if |s.puts| - |s.gets| < s.size - 1 {
      e := SoloWrite(s3);
    } else {
      e := s3;
      ReachesSelf(e);
    }
    ReachesOne(s2, PutCheck, e);
    ReachesOne(s1, PutLoad(|s.gets|), e);
    ReachesOne(s, PutBegin(x), e);
  }

  lemma SoloRead<T(!new)>(s: State<T>) returns (e: State<T>)
    requires Inv(s) && s.prod.PutIdle? && s.cons.GetReading?
    ensures Reaches(s, e) && Idle(e) && e.size == s.size && e.prodSeen == s.prodSeen
    ensures e.puts == s.puts && e.gets == s.puts[..|s.gets| + 1]
  {
    hide Reaches;
    var read := GetRead(Written(|s.gets|));
    OldestIsVisible(s);
    ReadIsDetermined(s, Written(|s.gets|));
    var s1 := Apply(s, read);
    StepKeepsInv(s, read);
    e := Apply(s1, GetStore);
    StepKeepsInv(s1, GetStore);
    ReachesSelf(e);
    ReachesOne(s1, GetStore, e);
    ReachesOne(s, read, e);
  }

  lemma SoloTest<T(!new)>(s: State<T>) returns (e: State<T>)
    requires Inv(s) && s.prod.PutIdle? && s.cons.GetChecking? && s.consSeen == |s.puts|
    ensures Reaches(s, e) && Idle(e) && e.size == s.size && e.puts == s.puts && e.prodSeen == s.prodSeen
    ensures e.gets == if |s.gets| < |s.puts| then s.puts[..|s.gets| + 1] else s.gets
  {
    hide Reaches;
    var s1 := Apply(s, GetCheck);
    StepKeepsInv(s, GetCheck);
    GetVerdict(s);
    if |s.gets| < |s.puts| {
      e := SoloRead(s1);
    } else {
      e := s1;
      ReachesSelf(e);
    }
    ReachesOne(s, GetCheck, e);
  }

  lemma SoloLoad<T(!new)>(s: State<T>) returns (s1: State<T>, s2: State<T>)
    requires Idle(s)
    ensures Enabled(s, GetBegin) && s1 == Apply(s, GetBegin)
    ensures Enabled(s1, GetLoad(|s.puts|)) && s2 == Apply(s1, GetLoad(|s.puts|))
    ensures Inv(s2) && s2.prod.PutIdle? && s2.cons.GetChecking? && s2.consSeen == |s.puts|
    ensures s2.size == s.size && s2.puts == s.puts && s2.gets == s.gets && s2.prodSeen == s.prodSeen
  {
    s1 := Apply(s, GetBegin);
    StepKeepsInv(s, GetBegin);
    s2 := Apply(s1, GetLoad(|s.puts|));
    StepKeepsInv(s1, GetLoad(|s.puts|));
  }

  /** Left alone, a get succeeds exactly when something is stored, and returns
      the oldest element. */
  lemma SoloGet<T(!new)>(s: State<T>) returns (e: State<T>)
    requires Idle(s)
    ensures Reaches(s, e) && Idle(e) && e.size == s.size && e.puts == s.puts && e.prodSeen == s.prodSeen
    ensures e.gets == if |s.gets| < |s.puts| then s.puts[..|s.gets| + 1] else s.gets
  {
    hide Reaches, Inv, Enabled, Apply;
    var s1, s2 := SoloLoad(s);
    e := SoloTest(s2);
    ReachesOne(s1, GetLoad(|s.puts|), e);
    ReachesOne(s, GetBegin, e);
  }

  // ---- wait-freedom --------------------------------------------------------

  predicate IsPut<T>(a: Action<T>) {
    a.PutBegin? || a.PutLoad? || a.PutCheck? || a.PutWrite? || a.PutStore?
  }

  /** Steps a put, or a get, has still to make itself. */
  function PutLeft<T>(s: State<T>): nat {
    match s.prod
    case PutIdle => 0 case PutLoading(_, _) => 4 case PutChecking(_, _, _, _) => 3
    case PutWriting(_, _, _) => 2 case PutStoring(_, _, _) => 1
  }

  function GetLeft<T>(s: State<T>): nat {
    match s.cons
    case GetIdle => 0 case GetLoading(_) => 4 case GetChecking(_, _, _) => 3
    case GetReading(_) => 2 case GetStoring(_, _) => 1
  }

  /** The producer is never held up: whatever the consumer is doing, it may begin a
      put, and inside one its next step is enabled; a load may return every value
      not older than the last one seen. */
  lemma ProducerMayStep<T>(s: State<T>, x: T) returns (a: Action<T>)
    requires Inv(s)
    ensures Enabled(s, a) && IsPut(a) && (s.prod.PutIdle? <==> a == PutBegin(x))
    ensures s.prod.PutLoading? ==> forall k | s.prodSeen <= k < |s.tails| :: Enabled(s, PutLoad(k))
  {
    a := match s.prod
         case PutIdle => PutBegin(x)
         case PutLoading(_, _) => PutLoad(s.prodSeen)
         case PutChecking(_, _, _, _) => PutCheck
         case PutWriting(_, _, _) => PutWrite
         case PutStoring(_, _, _) => PutStore;
  }

  lemma ConsumerMayStep<T>(s: State<T>) returns (a: Action<T>)
    requires Inv(s)
    ensures Enabled(s, a) && !IsPut(a) && (s.cons.GetIdle? <==> a == GetBegin)
    ensures s.cons.GetLoading? ==> forall k | s.consSeen <= k < |s.heads| :: Enabled(s, GetLoad(k))
  {
    if s.cons.GetReading? {
      OldestIsVisible(s);
    }
    a := match s.cons
         case GetIdle => GetBegin
         case GetLoading(_) => GetLoad(s.consSeen)
         case GetChecking(_, _, _) => GetCheck
         case GetReading(_) => GetRead(Written(TailPos(s)))
         case GetStoring(_, _) => GetStore;
  }

  /** How many of the actions are steps of the producer inside a put. */
  ghost function PutSteps<T>(acts: seq<Action<T>>): nat {
    if acts == [] then 0 else (if IsPut(acts[0]) then 1 else 0) + PutSteps(acts[1..])
  }

  ghost function GetSteps<T>(acts: seq<Action<T>>): nat {
    if acts == [] then 0 else (if IsPut(acts[0]) then 0 else 1) + GetSteps(acts[1..])
  }

  lemma StepCounts<T>(s: State<T>, a: Action<T>)
    requires Enabled(s, a)
    ensures var e := Apply(s, a);
            && (if a.PutBegin? then PutLeft(s) == 0 && PutLeft(e) == 4
                else if IsPut(a) then PutLeft(e) < PutLeft(s) else PutLeft(e) == PutLeft(s))
            && (if a.GetBegin? then GetLeft(s) == 0 && GetLeft(e) == 4
                else if !IsPut(a) then GetLeft(e) < GetLeft(s) else GetLeft(e) == GetLeft(s))
  {
  }

  /** Wait-freedom: however the steps of the two threads interleave, a call is over
      after four steps of its own thread. */
  lemma {:induction false} CallsAreWaitFree<T>(s: State<T>, acts: seq<Action<T>>)
    requires Runnable(s, acts)
    ensures (forall a <- acts :: !a.PutBegin?) ==> PutSteps(acts) + PutLeft(Exec(s, acts)) <= PutLeft(s) <= 4
    ensures (forall a <- acts :: !a.GetBegin?) ==> GetSteps(acts) + GetLeft(Exec(s, acts)) <= GetLeft(s) <= 4
    decreases |acts|
  {
    if acts != [] {
      assert acts[0] in acts && forall a <- acts[1..] :: a in acts;
      StepCounts(s, acts[0]);
      CallsAreWaitFree(Apply(s, acts[0]), acts[1..]);
    }
  }

  // ---- stale refusals ------------------------------------------------------

  lemma {:induction false} ReachesFarther<T(!new)>(s: State<T>, m: State<T>, e: State<T>)
    requires Reaches(s, m) && Reaches(m, e)
    ensures Reaches(s, e)
  {
    var acts :| Runnable(s, acts) && Exec(s, acts) == m;
    Onward(s, acts, e);
  }

  lemma {:induction false} Onward<T(!new)>(s: State<T>, acts: seq<Action<T>>, e: State<T>)
    requires Runnable(s, acts) && Reaches(Exec(s, acts), e)
    ensures Reaches(s, e)
    decreases |acts|
  {
    if acts != [] {
      Onward(Apply(s, acts[0]), acts[1..], e);
      ReachesOne(s, acts[0], e);
    }
  }

  /** Puts alone fill the buffer up to n elements. */
  lemma {:induction false} Fill<T(!new)>(s: State<T>, x: T, n: nat) returns (e: State<T>)
    requires Idle(s) && s.puts == [] && n < s.size
    ensures Reaches(s, e) && Idle(e) && e.size == s.size && |e.puts| == n && e.gets == [] && e.prodSeen == 0
  {
    hide Reaches;
    if n == 0 {
      e := s;
      ReachesSelf(e);
    } else {
      var m := Fill(s, x, n - 1);
      e := SoloPut(m, x);
      ReachesFarther(s, m, e);
    }
  }

  /** A put about to be refused although there was room when it loaded. */
  ghost predicate RefusesWithRoom<T>(s: State<T>) {
    PutRefused(s) && |s.puts| - s.prod.loadedAt < s.size - 1
  }

  /** A get about to be refused although something was stored when it loaded. */
  ghost predicate RefusesWithStock<T>(s: State<T>) {
    GetRefused(s) && |s.gets| < s.cons.loadedAt
  }

  /** A full buffer, one get, and then a put that still sees the old tail. */
  lemma StalePut<T(!new)>(s: State<T>, x: T) returns (e: State<T>)
    requires Init(s) && s.size >= 2
    ensures Reaches(s, e) && RefusesWithRoom(e)
  {
    hide Reaches;
    InitHasInv(s);
    var full := Fill(s, x, s.size - 1);
    var s0 := SoloGet(full);
    var s1 := Apply(s0, PutBegin(x));
    StepKeepsInv(s0, PutBegin(x));
    e := Apply(s1, PutLoad(0));
    StepKeepsInv(s1, PutLoad(0));
    PutVerdict(e);
    ReachesSelf(e);
    ReachesOne(s1, PutLoad(0), e);
    ReachesOne(s0, PutBegin(x), e);
    ReachesFarther(full, s0, e);
    ReachesFarther(s, full, e);
  }

  /** The first put of a run, between its check and its end. */
  lemma FirstPut<T(!new)>(s: State<T>) returns (e: State<T>)
    requires s.size > 0 && s.heads != [] && s.tails != [] && s.prod.PutWriting?
    ensures Reaches(s, e) && e == s.(prod := PutIdle, heads := e.heads, writeLog := e.writeLog, puts := s.puts + [s.prod.x])
    ensures |e.heads| == |s.heads| + 1 && e.heads[..|s.heads|] == s.heads
  {
    hide Reaches;
    var s1 := Apply(s, PutWrite);
    e := Apply(s1, PutStore);
    ReachesSelf(e);
    ReachesOne(s1, PutStore, e);
    ReachesOne(s, PutWrite, e);
  }

  /** A put, and then a get that still sees the old head. */
  lemma StaleGet<T(!new)>(s: State<T>, x: T) returns (e: State<T>)
    requires Init(s) && s.size >= 2
    ensures Reaches(s, e) && RefusesWithStock(e)
  {
    hide Reaches;
    var s1 := Apply(s, GetBegin);
    var s2 := Apply(s1, PutBegin(x));
    var s3 := Apply(s2, PutLoad(0));
    var s4 := Apply(s3, PutCheck);
    var s5 := FirstPut(s4);
    assert s5.heads[0] == s5.heads[..1][0];
    e := Apply(s5, GetLoad(0));
    ReachesSelf(e);
    ReachesOne(s5, GetLoad(0), e);
    ReachesFarther(s4, s5, e);
    ReachesOne(s3, PutCheck, e);
    ReachesOne(s2, PutLoad(0), e);
    ReachesOne(s1, PutBegin(x), e);
    ReachesOne(s, GetBegin, e);
  }

  /** Stale loads do refuse calls that could have succeeded: some run leads to a
      put refused with room, and some run to a get refused with something
      stored, exactly when the buffer can hold anything at all. */
  lemma StaleRefusals<T(!new)>(s: State<T>, x: T)
    requires Init(s)
    ensures (exists e :: Reaches(s, e) && RefusesWithRoom(e)) <==> s.size >= 2
    ensures (exists e :: Reaches(s, e) && RefusesWithStock(e)) <==> s.size >= 2
  {
    if s.size >= 2 {
      var e := StalePut(s, x);
      var d := StaleGet(s, x);
    }
    forall e | Reaches(s, e) && (RefusesWithRoom(e) || RefusesWithStock(e)) ensures s.size >= 2 {
      var acts :| Runnable(s, acts) && Exec(s, acts) == e;
      RefusalMeansFullOrEmpty(s, acts);
      QueueIsFifo(s, acts);
    }
  }

  /** The slots between the two positions hold the stored elements. */
  ghost predicate Holds<T>(slots: seq<T>, s: State<T>) {
    && Idle(s) && |slots| == s.size
    && forall n {:trigger s.puts[n]} :: TailPos(s) <= n < HeadPos(s) ==> slots[n % s.size] == s.puts[n]
  }

  /** _next: the following index, wrapping at the end of the block. */
  function Next(i: nat, size: nat): nat
    requires size > 0
  {
    (i + 1) % size
  }

  /** The indices that belong to the two positions. */
  ghost function HeadSlot<T>(s: State<T>): nat {
    if s.size > 0 && s.heads != [] then HeadPos(s) % s.size else 0
  }

  ghost function TailSlot<T>(s: State<T>): nat {
    if s.size > 0 && s.tails != [] then TailPos(s) % s.size else 0
  }

  lemma HoldsAfterPut<T>(slots: seq<T>, s: State<T>, e: State<T>, x: T)
    requires Holds(slots, s) && Idle(e) && e.size == s.size && e.gets == s.gets && e.puts == s.puts + [x]
    requires |s.puts| - |s.gets| < s.size - 1
    ensures HeadSlot(s) < |slots| && Holds(slots[HeadSlot(s) := x], e)
    ensures HeadSlot(e) == Next(HeadSlot(s), s.size) && TailSlot(e) == TailSlot(s)
    ensures e.puts[|e.gets|..] == s.puts[|s.gets|..] + [x]
  {
    NextIndex(HeadPos(s), s.size);
    forall n {:trigger e.puts[n]} | TailPos(e) <= n < HeadPos(e)
      ensures slots[HeadSlot(s) := x][n % e.size] == e.puts[n]
    {
      SameIndex(n, HeadPos(s), s.size);
      if n < HeadPos(s) {
        assert e.puts[n] == s.puts[n];
      }
    }
  }

  lemma HoldsAfterGet<T>(slots: seq<T>, s: State<T>, e: State<T>)
    requires Holds(slots, s) && Idle(e) && e.size == s.size && e.puts == s.puts
    requires |s.gets| < |s.puts| && e.gets == s.puts[..|s.gets| + 1]
    ensures Holds(slots, e)
    ensures TailSlot(e) == Next(TailSlot(s), s.size) && HeadSlot(e) == HeadSlot(s)
    ensures TailSlot(s) < |slots| && s.puts[|s.gets|..] == [slots[TailSlot(s)]] + e.puts[|e.gets|..]
  {
    NextIndex(TailPos(s), s.size);
  }

  lemma HoldsAfterRefusal<T>(slots: seq<T>, s: State<T>, e: State<T>)
    requires Holds(slots, s) && Idle(e) && e.size == s.size && e.puts == s.puts && e.gets == s.gets
    ensures Holds(slots, e) && HeadSlot(e) == HeadSlot(s) && TailSlot(e) == TailSlot(s)
  {
  }

  /** The index test for an empty buffer. */
  lemma EmptyTest<T>(s: State<T>)
    requires Idle(s)
    ensures s.size > 0 && TailSlot(s) < s.size && |s.gets| <= |s.puts|
    ensures TailSlot(s) == HeadSlot(s) <==> |s.puts| == |s.gets|
  {
    SameIndex(TailPos(s), HeadPos(s), s.size);
  }

  /** The buffer as an object, for calls that are not interleaved. The ghost
      field runs the step machine alongside, so each call is shown to be a run
      of it that ends with both threads idle. */
  class WaitFreeConcurrentRingBuffer<T(0, !new)> {
    const buff: array<T>
    var head: nat
    var tail: nat
    ghost var s: State<T>

    ghost predicate Valid()
      reads this, buff
    {
      && Idle(s) && s.size == buff.Length
      && head == HeadSlot(s) && tail == TailSlot(s)
      && Holds(buff[..], s)
    }

    /** The stored elements, oldest first. */
    ghost function Contents(): seq<T>
      requires Valid()
      reads this, buff
    {
      s.puts[|s.gets|..]
    }

    constructor (size: nat, blank: T)
      requires size > 0
      ensures Valid() && fresh(buff) && buff.Length == size && Contents() == []
    {
      buff := new T[size];
      head, tail := 0, 0;
      s := State(size, blank, [Store(0, 0)], [Store(0, 0)], [], [], PutIdle, GetIdle, 0, 0, 0, 0, [], []);
    }

    method AsyncPut(x: T) returns (ok: bool)
      requires Valid()
      modifies this, buff
      ensures Valid()
      ensures Reaches(old(s), s)
      ensures ok == (|old(Contents())| < buff.Length - 1)
      ensures Contents() == if ok then old(Contents()) + [x] else old(Contents())
    {
      hide Reaches, Idle, Holds, HeadSlot, TailSlot, Next;
      ghost var e := SoloPut(s, x);
      FullTest(s);
      var nextIdx := Next(head, buff.Length);
      if nextIdx == tail {
        HoldsAfterRefusal(buff[..], s, e);
        s := e;
        return false;
      }
      HoldsAfterPut(buff[..], s, e, x);
      ghost var after := buff[..][head := x];
      buff[head] := x;
      assert buff[..] == after;
      head := nextIdx;
      s := e;
      return true;
    }

    method AsyncGet(dflt: T) returns (ok: bool, x: T)
      requires Valid()
      modifies this
      ensures Valid()
      ensures Reaches(old(s), s)
      ensures ok == (old(Contents()) != [])
      ensures ok ==> old(Contents()) == [x] + Contents()
      ensures !ok ==> Contents() == old(Contents()) && x == dflt
    {
      hide Reaches, Idle, Holds, HeadSlot, TailSlot, Next;
      ghost var e := SoloGet(s);
      EmptyTest(s);
      if tail == head {
        HoldsAfterRefusal(buff[..], s, e);
        s := e;
        return false, dflt;
      }
      HoldsAfterGet(buff[..], s, e);
      x := buff[tail];
      tail := Next(tail, buff.Length);
      s := e;
      ok := true;
    }
  }

  /** The index test for a full buffer. */
  lemma FullTest<T>(s: State<T>)
    requires Idle(s)
    ensures s.size > 0 && HeadSlot(s) < s.size && |s.gets| <= |s.puts| < |s.gets| + s.size
    ensures Next(HeadSlot(s), s.size) == TailSlot(s) <==> |s.puts| - |s.gets| == s.size - 1
  {
    NextIndex(HeadPos(s), s.size);
    SameIndex(TailPos(s), HeadPos(s) + 1, s.size);
    LapIsSameIndex(TailPos(s), s.size);
  }
}
