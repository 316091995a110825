/** Hand-over of accepted connections through the wait-free buffer:
    notifyNewConnnectMsg puts a message and then writes an eventfd semaphore;
    onNewConMsg, called when that eventfd is readable, reads it and asserts
    that its asyncGet succeeds. The buffer is the step machine of WaitFree with
    all its stale loads, so the assertion is only as good as what the eventfd
    read makes visible: `synced` says whether a read brings along what the
    writers had stored before their write, as the kernel's lock does.
  */
module Announce {
  import opened Modular
  import Q = WaitFree

  datatype Pc =
    | Armed      // handler registered, worker in its event loop
    | Getting    // eventfd read, inside asyncGet
    | Handling   // message taken, handler not yet registered again

  datatype State<T> = State(
    q: Q.State<T>,
    counter: nat,      // the eventfd
    announced: nat,    // history: position of the head when the eventfd was last written
    owing: bool,       // notifier between its put and its write
    pc: Pc,
    synced: bool,
    failed: bool)      // the assertion on asyncGet was violated

  datatype Action<T> =
    | Notify(a: Q.Action<T>)
    | Write
    | Read
    | Get(a: Q.Action<T>)
    | Rearm

  ghost predicate Enabled<T>(s: State<T>, a: Action<T>) {
    match a
    case Notify(b) => !s.owing && Q.IsPut(b) && Q.Enabled(s.q, b)
    case Write => s.owing && s.q.heads != []
    case Read => s.pc.Armed? && s.counter > 0 && s.announced < |s.q.heads|
    case Get(b) => s.pc.Getting? && !s.failed && !Q.IsPut(b) && Q.Enabled(s.q, b)
    case Rearm => s.pc.Handling?
  }

  ghost function Apply<T>(s: State<T>, a: Action<T>): State<T>
    requires Enabled(s, a)
  {
    match a
    case Notify(b) => s.(q := Q.Apply(s.q, b), owing := b.PutStore?)
    case Write => s.(counter := s.counter + 1, announced := |s.q.heads| - 1, owing := false)
    case Read =>
      var q := s.q.(consSeen := Q.Max(s.q.consSeen, s.announced),
                    consView := Q.Max(s.q.consView, s.q.heads[s.announced].view));
      s.(counter := s.counter - 1, pc := Getting, q := if s.synced then q else s.q)
    case Get(b) =>
      var q := Q.Apply(s.q, b);
      s.(q := q, pc := if b.GetStore? then Handling else Getting, failed := b.GetCheck? && q.cons.GetIdle?)
    case Rearm => s.(pc := Armed)
  }

  ghost predicate Init<T>(s: State<T>) {
    && Q.Init(s.q) && s.counter == 0 && s.announced == 0 && !s.owing && s.pc == Armed && !s.failed
  }

  ghost predicate Runnable<T>(s: State<T>, acts: seq<Action<T>>)
    decreases |acts|
  {
    acts == [] || (Enabled(s, acts[0]) && Runnable(Apply(s, acts[0]), acts[1..]))
  }

  ghost function Exec<T>(s: State<T>, acts: seq<Action<T>>): State<T>
    requires Runnable(s, acts)
    decreases |acts|
  {
    if acts == [] then s else Exec(Apply(s, acts[0]), acts[1..])
  }

  /** Every stored message is announced or about to be; every announcement is
      pending, claimed or spent on a message already taken. */
  ghost predicate Balanced<T>(s: State<T>) {
    && Q.HeadPos(s.q) == s.announced + (if s.owing then 1 else 0)
    && s.announced == s.counter + Q.TailPos(s.q) + (if s.pc.Getting? then 1 else 0)
  }

  ghost predicate Inv<T>(s: State<T>) {
    && Q.Inv(s.q) && Balanced(s) && s.synced && !s.failed
    && (s.owing ==> s.q.prod.PutIdle?)
    && (!s.pc.Getting? ==> s.q.cons.GetIdle?)
    && (s.pc.Getting? ==> Q.TailPos(s.q) < s.q.consSeen)
  }

  lemma NotifyKeepsInv<T>(s: State<T>, b: Q.Action<T>)
    requires Inv(s) && Enabled(s, Notify(b))
    ensures Inv(Apply(s, Notify(b)))
  {
    Q.StepKeepsInv(s.q, b);
  }

  /** With what the eventfd read made visible, even a stale load of the head
      shows a message: the asserted asyncGet succeeds. */
  lemma GetKeepsInv<T>(s: State<T>, b: Q.Action<T>)
    requires Inv(s) && Enabled(s, Get(b))
    ensures Inv(Apply(s, Get(b)))
  {
    Q.StepKeepsInv(s.q, b);
    SameIndex(Q.TailPos(s.q), s.q.consSeen, s.q.size);
  }

  lemma ReadKeepsInv<T>(s: State<T>)
    requires Inv(s) && Enabled(s, Read)
    ensures Inv(Apply(s, Read))
  {
  }

  lemma StepKeepsInv<T>(s: State<T>, a: Action<T>)
    requires Inv(s) && Enabled(s, a)
    ensures Inv(Apply(s, a))
  {
    match a
    case Notify(b) => NotifyKeepsInv(s, b);
    case Get(b) => GetKeepsInv(s, b);
    case Read => ReadKeepsInv(s);
    case Write =>
    case Rearm =>
  }

  lemma {:induction false} RunKeepsInv<T>(s: State<T>, acts: seq<Action<T>>)
    requires Inv(s) && Runnable(s, acts)
    ensures Inv(Exec(s, acts))
    decreases |acts|
  {
    if acts != [] {
      StepKeepsInv(s, acts[0]);
      RunKeepsInv(Apply(s, acts[0]), acts[1..]);
    }
  }

  /** The steps of the buffer among the actions of a run, in order. */
  ghost function BufferSteps<T>(acts: seq<Action<T>>): seq<Q.Action<T>> {
    if acts == [] then [] else
      (if acts[0].Notify? || acts[0].Get? then [acts[0].a] else []) + BufferSteps(acts[1..])
  }

  lemma {:induction false} RunIsRecorded<T>(s: State<T>, before: seq<Q.Action<T>>, acts: seq<Action<T>>)
    requires Runnable(s, acts) && Q.Recorded(s.q, before)
    ensures Q.Recorded(Exec(s, acts).q, before + BufferSteps(acts))
    decreases |acts|
  {
    if acts == [] {
      assert before + BufferSteps(acts) == before;
    } else {
      var a, rest := acts[0], BufferSteps(acts[1..]);
      if a.Notify? || a.Get? {
        Q.StepIsRecorded(s.q, before, a.a);
        RunIsRecorded(Apply(s, a), before + [a.a], acts[1..]);
        assert before + [a.a] + rest == before + ([a.a] + rest);
      } else {
        RunIsRecorded(Apply(s, a), before, acts[1..]);
        assert before + ([] + rest) == before + rest;
      }
    }
  }

  /** Over every interleaving: the assertion holds; the messages that arrive are
      the first of those announced, in order, as their notifier passed them; and
      whenever the worker is in its event loop and a message is stored, either
      the eventfd is readable or the notifier is about to write it. */
  lemma HandoverIsSafe<T>(s: State<T>, acts: seq<Action<T>>)
    requires Init(s) && s.synced && Runnable(s, acts)
    ensures var e := Exec(s, acts); var args := Q.PutArguments(BufferSteps(acts));
            && !e.failed
            && |e.q.gets| <= |args| && Q.Somes(e.q.puts) == args && Q.Somes(e.q.gets) == args[..|e.q.gets|]
            && (e.pc.Armed? && e.q.gets != e.q.puts ==> Enabled(e, Read) || Enabled(e, Write))
  {
    Q.InitHasInv(s.q);
    RunKeepsInv(s, acts);
    RunIsRecorded(s, [], acts);
    assert [] + BufferSteps(acts) == BufferSteps(acts);
  }

  // ---- every message is eventually taken -----------------------------------

  /** The steps still taken when nothing new is announced. */
  predicate Drains<T>(a: Action<T>) {
    !(a.Notify? && a.a.PutBegin?)
  }

  ghost predicate Delivered<T>(s: State<T>) {
    s.q.prod.PutIdle? && !s.owing && s.counter == 0 && s.pc.Armed? && s.q.gets == s.q.puts
  }

  /** A notifier that owes no write may always go on with its put, or begin one. */
  lemma NotifierCanMove<T>(s: State<T>, x: T) returns (a: Action<T>)
    requires Inv(s) && !s.owing
    ensures Enabled(s, a) && (if s.q.prod.PutIdle? then a == Notify(Q.PutBegin(x)) else Drains(a))
  {
    var b := Q.ProducerMayStep(s.q, x);
    a := Notify(b);
  }

  /** So may a worker inside its get: in particular the slot read always has a
      write it may return. */
  lemma GetterCanMove<T>(s: State<T>) returns (a: Action<T>)
    requires Inv(s) && s.pc.Getting?
    ensures Enabled(s, a) && Drains(a)
  {
    var b := Q.ConsumerMayStep(s.q);
    a := Get(b);
  }

  /** And the steps at the eventfd wait for nothing but their own turn. */
  lemma EachMayMove<T>(s: State<T>)
    requires Inv(s)
    ensures s.owing ==> Enabled(s, Write)
    ensures s.pc.Armed? && s.counter > 0 ==> Enabled(s, Read)
    ensures s.pc.Handling? ==> Enabled(s, Rearm)
  {
  }

  /** Unless everything is delivered, some thread can move. */
  lemma NeverStranded<T>(s: State<T>) returns (a: Action<T>)
    requires Inv(s) && !Delivered(s)
    ensures Enabled(s, a) && Drains(a)
  {
    if !s.q.prod.PutIdle? {
      a := NotifierCanMove(s, s.q.blank);
    } else if s.owing {
      a := Write;
    } else if s.pc.Getting? {
      a := GetterCanMove(s);
    } else {
      a := if s.pc.Handling? then Rearm else Read;
    }
  }

  /** How many steps are left at most. */
  ghost function Rank<T>(s: State<T>): nat {
    8 * s.counter + (if s.owing then 9 else 0)
    + (match s.q.prod
       case PutIdle => 0 case PutLoading(_, _) => 13 case PutChecking(_, _, _, _) => 12
       case PutWriting(_, _, _) => 11 case PutStoring(_, _, _) => 10)
    + match s.pc
      case Armed => 0
      case Handling => 1
      case Getting =>
        match s.q.cons
        case GetIdle => 6 case GetLoading(_) => 5 case GetChecking(_, _, _) => 4
        case GetReading(_) => 3 case GetStoring(_, _) => 2
  }

  lemma DrainDescends<T>(s: State<T>, a: Action<T>)
    requires Inv(s) && Enabled(s, a) && Drains(a)
    ensures Inv(Apply(s, a)) && Rank(Apply(s, a)) < Rank(s)
  {
    StepKeepsInv(s, a);
  }

  /** From any reachable state, once no more is announced: every run that goes on
      until nothing can move is finite and ends with all messages taken, in
      order, and the worker back in its event loop with the handler armed. */
  lemma {:induction false} DrainDelivers<T(!new)>(s: State<T>, acts: seq<Action<T>>)
    requires Inv(s) && Runnable(s, acts) && forall a <- acts :: Drains(a)
    requires forall a: Action<T> :: Drains(a) ==> !Enabled(Exec(s, acts), a)
    ensures |acts| <= Rank(s)
    ensures Delivered(Exec(s, acts))
    decreases |acts|
  {
    if acts == [] {
      if !Delivered(s) {
        var a := NeverStranded(s);
      }
    } else {
      DrainDescends(s, acts[0]);
      DrainDelivers(Apply(s, acts[0]), acts[1..]);
    }
  }

  ghost predicate CanFail<T(!new)>(s: State<T>) {
    exists acts :: Runnable(s, acts) && Exec(s, acts).failed
  }

  lemma Prepend<T>(s: State<T>, a: Action<T>, acts: seq<Action<T>>)
    requires Enabled(s, a) && Runnable(Apply(s, a), acts)
    ensures Runnable(s, [a] + acts) && Exec(s, [a] + acts) == Exec(Apply(s, a), acts)
  {
  }

  lemma FailsOne<T(!new)>(s: State<T>, a: Action<T>)
    requires Enabled(s, a) && CanFail(Apply(s, a))
    ensures CanFail(s)
  {
    var acts :| Runnable(Apply(s, a), acts) && Exec(Apply(s, a), acts).failed;
    Prepend(s, a, acts);
  }

  /** The consumer reads the token and then loads a head older than it. */
  lemma StaleGetFails<T(!new)>(s: State<T>)
    requires !s.synced && !s.failed && s.pc.Armed? && s.counter > 0 && s.announced < |s.q.heads|
    requires s.q.size > 0 && |s.q.heads| > 1 && s.q.tails == [Q.Store(0, 0)] && s.q.heads[0].index == 0
    requires s.q.cons.GetIdle? && s.q.consSeen == 0
    ensures CanFail(s)
  {
    var s1 := Apply(s, Read);
    var s2 := Apply(s1, Get(Q.GetBegin));
    var s3 := Apply(s2, Get(Q.GetLoad(0)));
    var s4 := Apply(s3, Get(Q.GetCheck));
    assert Runnable(s4, []) && Exec(s4, []).failed;
    FailsOne(s3, Get(Q.GetCheck));
    FailsOne(s2, Get(Q.GetLoad(0)));
    FailsOne(s1, Get(Q.GetBegin));
    FailsOne(s, Read);
  }

  /** The synchronisation is needed: with room for one message, the assertion
      can fail exactly when eventfd reads do not bring the writers' stores. */
  lemma FailsWithoutSync<T(!new)>(s: State<T>, x: T)
    requires Init(s) && s.q.size >= 2
    ensures CanFail(s) <==> !s.synced
  {
    if s.synced {
      forall acts | Runnable(s, acts) ensures !Exec(s, acts).failed {
        HandoverIsSafe(s, acts);
      }
    } else {
      var s1 := Apply(s, Notify(Q.PutBegin(x)));
      var s2 := Apply(s1, Notify(Q.PutLoad(0)));
      var s3 := Apply(s2, Notify(Q.PutCheck));
      var s4 := Apply(s3, Notify(Q.PutWrite));
      var s5 := Apply(s4, Notify(Q.PutStore));
      var s6 := Apply(s5, Write);
      assert s6.q.heads == [Q.Store(0, 0)] + [Q.Store(1, 1)];
      StaleGetFails(s6);
      FailsOne(s5, Write);
      FailsOne(s4, Notify(Q.PutStore));
      FailsOne(s3, Notify(Q.PutWrite));
      FailsOne(s2, Notify(Q.PutCheck));
      FailsOne(s1, Notify(Q.PutLoad(0)));
      FailsOne(s, Notify(Q.PutBegin(x)));
    }
  }
}
