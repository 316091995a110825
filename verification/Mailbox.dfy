/** The mailbox of an InteractiveTask: the locked queue plus an eventfd opened as
    a semaphore. A sender stores its message and only then writes the eventfd;
    the receiver is called when the eventfd is readable, reads it, takes one
    message with the blocking get, handles it and re-arms its handler.
    Senders are any number of threads; the receiver is one.
  */
module Mailbox {
  import opened LockedRing
  import opened Ring

  const RECEIVER: Tid := 0

  /** Where the receiving thread is inside __onMessage. */
  datatype Pc =
    | Armed      // handler registered, thread in the event loop
    | HasToken   // eventfd read, message not yet taken
    | Asleep     // the blocking get found nothing
    | Handling   // message taken, handler not yet registered again

  datatype State<M> = State(
    mon: LockedRing.State<M>,
    counter: nat,         // the eventfd
    owing: set<Tid>,      // senders between the put and the write
    pc: Pc,
    semaphore: bool,      // the eventfd was created with EFD_SEMAPHORE
    eventVal: nat)        // what the receiver read last

  datatype Action<M> =
    | Send(t: Tid, m: M, wakee: Tid)
    | ResumeSend(t: Tid, wakee: Tid)
    | SpuriousSend(t: Tid)
    | Write(t: Tid)
    | Read
    | Take(wakee: Tid)
    | Rearm

  /** read() on an eventfd: the value read and the counter left. A semaphore is
      counted down, a plain eventfd is emptied. */
  function EventFdRead(counter: nat, semaphore: bool): (nat, nat)
    requires counter > 0
  {
    if semaphore then (1, counter - 1) else (counter, 0)
  }

  /** The sender's part of a monitor step: once its message is stored it owes a write. */
  function AfterPut<M>(s: State<M>, mon: LockedRing.State<M>, t: Tid): State<M> {
    s.(mon := mon, owing := if mon.notFull.Blocked(t) then s.owing else s.owing + {t})
  }

  predicate Enabled<M>(s: State<M>, a: Action<M>) {
    match a
    case Send(t, m, w) => t != RECEIVER && t !in s.owing && LockedRing.Enabled(s.mon, Put(t, m, true, w))
    case ResumeSend(t, w) => LockedRing.Enabled(s.mon, ResumePut(t, w))
    case SpuriousSend(t) => LockedRing.Enabled(s.mon, SpuriousPut(t))
    case Write(t) => t in s.owing
    case Read => s.pc.Armed? && s.counter > 0
    case Take(w) => s.pc.HasToken? && LockedRing.Enabled(s.mon, Get(RECEIVER, true, w))
    case Rearm => s.pc.Handling?
  }

  function Apply<M>(s: State<M>, a: Action<M>): State<M>
    requires Enabled(s, a)
  {
    match a
    case Send(t, m, w) => AfterPut(s, LockedRing.Apply(s.mon, Put(t, m, true, w)), t)
    case ResumeSend(t, w) => AfterPut(s, LockedRing.Apply(s.mon, ResumePut(t, w)), t)
    case SpuriousSend(t) => s.(mon := LockedRing.Apply(s.mon, SpuriousPut(t)))
    case Write(t) => s.(counter := s.counter + 1, owing := s.owing - {t})
    case Read =>
      var (value, left) := EventFdRead(s.counter, s.semaphore);
      s.(counter := left, pc := HasToken, eventVal := value)
    case Take(w) =>
      var mon := LockedRing.Apply(s.mon, Get(RECEIVER, true, w));
      s.(mon := mon, pc := if mon.notEmpty.Blocked(RECEIVER) then Asleep else Handling)
    case Rearm => s.(pc := Armed)
  }

  ghost predicate Init<M>(s: State<M>) {
    LockedRing.Init(s.mon) && s.counter == 0 && s.owing == {} && s.pc == Armed && s.eventVal == 1
  }

  ghost predicate Runnable<M>(s: State<M>, acts: seq<Action<M>>)
    decreases |acts|
  {
    acts == [] || (Enabled(s, acts[0]) && Runnable(Apply(s, acts[0]), acts[1..]))
  }

  ghost function Exec<M>(s: State<M>, acts: seq<Action<M>>): State<M>
    requires Runnable(s, acts)
    decreases |acts|
  {
    if acts == [] then s else Exec(Apply(s, acts[0]), acts[1..])
  }

  /** Every stored message is announced, about to be announced, or claimed. */
  ghost predicate Balanced<M>(s: State<M>) {
    && s.mon.ring.Valid()
    && |s.mon.ring.Contents()| == s.counter + |s.owing| + if s.pc.HasToken? then 1 else 0
  }

  /** The eventfd counts tokens one by one, or never holds more than one. */
  predicate Counts<M>(s: State<M>) {
    s.semaphore || |s.mon.ring.slots| <= 2
  }

  ghost predicate Inv<M>(s: State<M>) {
    && LockedRing.Inv(s.mon)
    && Counts(s) && s.eventVal == 1
    && Balanced(s)
    && !s.pc.Asleep?
    && s.mon.notEmpty == Condvar({}, {})
    && (forall t <- s.owing :: t != RECEIVER && !s.mon.notFull.Blocked(t))
    && !s.mon.notFull.Blocked(RECEIVER)
  }

  /** A put either stores the message or leaves the sender blocked. */
  lemma PutOutcome<M>(s: LockedRing.State<M>, t: Tid, m: M, w: Tid)
    requires s.ring.Valid() && Free(s, t) && s.notEmpty == Condvar({}, {})
    ensures var e := PutSection(s, t, m, true, w);
            && e.notEmpty == s.notEmpty && e.gets == s.gets && e.ring.Valid() && |e.ring.slots| == |s.ring.slots|
            && if e.notFull.Blocked(t) then
                 e.ring == s.ring && e.notFull == s.notFull.Wait(t) && e.puts == s.puts && e.args == s.args[t := m]
               else
                 |e.ring.Contents()| == |s.ring.Contents()| + 1 && e.notFull == s.notFull
                 && e.puts == s.puts + [m] && e.args == s.args
  {
    PutSectionEffect(s, t, m, true, w);
  }

  lemma ResumerIsFree<M>(s: LockedRing.State<M>, t: Tid)
    requires LockedRing.Inv(s) && t in s.notFull.woken
    ensures Free(s.(notFull := s.notFull.Resume(t)), t)
  {
  }

  lemma SendKeepsInv<M>(s: State<M>, t: Tid, m: M, w: Tid)
    requires Inv(s) && Enabled(s, Send(t, m, w))
    ensures Inv(Apply(s, Send(t, m, w)))
  {
    var e := Apply(s, Send(t, m, w));
    PutOutcome(s.mon, t, m, w);
    assert Balanced(e);
    assert LockedRing.Inv(e.mon) by {
      LockedRing.StepKeepsInv(s.mon, Put(t, m, true, w));
    }
  }

  lemma ResumeSendKeepsInv<M>(s: State<M>, t: Tid, w: Tid)
    requires Inv(s) && Enabled(s, ResumeSend(t, w))
    ensures Inv(Apply(s, ResumeSend(t, w)))
  {
    hide LockedRing.Inv;
    var e := Apply(s, ResumeSend(t, w));
    ResumerIsFree(s.mon, t);
    PutOutcome(s.mon.(notFull := s.mon.notFull.Resume(t)), t, s.mon.args[t], w);
    assert Balanced(e);
    assert LockedRing.Inv(e.mon) by {
      LockedRing.StepKeepsInv(s.mon, ResumePut(t, w));
    }
  }

  /** The receiver falls asleep in its get exactly when nothing is stored. */
  lemma TakeSleepsIff<M>(s: State<M>, w: Tid)
    requires s.mon.ring.Valid() && Enabled(s, Take(w))
    ensures Apply(s, Take(w)).pc == if s.mon.ring.Contents() == [] then Asleep else Handling
  {
    GetSectionEffect(s.mon, RECEIVER, true, w);
  }

  /** The blocking get of the receiver always finds a message. */
  lemma TakeSucceeds<M>(s: State<M>, w: Tid)
    requires Inv(s) && Enabled(s, Take(w))
    ensures var e := Apply(s, Take(w)); var items := s.mon.ring.Contents();
            && items != [] && e.pc.Handling? && e.mon.ring.Valid() && e.mon.ring.Contents() == items[1..]
            && e == s.(mon := e.mon, pc := Handling) && |e.mon.ring.slots| == |s.mon.ring.slots|
            && e.mon == s.mon.(ring := e.mon.ring, notFull := s.mon.notFull.Wake(w), gets := s.mon.gets + [items[0]])
  {
    GetSectionEffect(s.mon, RECEIVER, true, w);
  }

  lemma TakeKeepsInv<M>(s: State<M>, w: Tid)
    requires Inv(s) && Enabled(s, Take(w))
    ensures Inv(Apply(s, Take(w)))
  {
    hide LockedRing.GetSection, LockedRing.Inv;
    var e := Apply(s, Take(w));
    TakeSucceeds(s, w);
    assert Balanced(e);
    assert LockedRing.Inv(e.mon) by {
      LockedRing.StepKeepsInv(s.mon, Get(RECEIVER, true, w));
    }
  }

  lemma SpuriousKeepsInv<M>(s: State<M>, t: Tid)
    requires Inv(s) && Enabled(s, SpuriousSend(t))
    ensures Inv(Apply(s, SpuriousSend(t)))
  {
    LockedRing.StepKeepsInv(s.mon, SpuriousPut(t));
  }

  /** Every step of every sender and of the receiver keeps the balance. */
  lemma StepKeepsInv<M>(s: State<M>, a: Action<M>)
    requires Inv(s) && Enabled(s, a)
    ensures Inv(Apply(s, a))
  {
    hide LockedRing.Inv, LockedRing.Apply, LockedRing.Enabled;
    match a
    case Send(t, m, w) => SendKeepsInv(s, t, m, w);
    case ResumeSend(t, w) => ResumeSendKeepsInv(s, t, w);
    case SpuriousSend(t) => SpuriousKeepsInv(s, t);
    case Write(t) => assert |s.owing - {t}| == |s.owing| - 1;
    case Read =>
    case Take(w) => TakeKeepsInv(s, w);
    case Rearm =>
  }

  lemma {:induction false} RunKeepsInv<M>(s: State<M>, acts: seq<Action<M>>)
    requires Inv(s) && Runnable(s, acts)
    ensures Inv(Exec(s, acts))
    decreases |acts|
  {
    if acts != [] {
      StepKeepsInv(s, acts[0]);
      RunKeepsInv(Apply(s, acts[0]), acts[1..]);
    }
  }

  /** In every run with a semaphore: queue length = eventfd counter + senders that
      still owe a write + receiver that has read but not taken; the receiver
      never sleeps in its get; each value it reads is 1; the counter stays below
      the queue size; and messages are handled in queue order, at most once. */
  lemma MailboxIsSafe<M>(s: State<M>, acts: seq<Action<M>>)
    requires Init(s) && Counts(s) && Runnable(s, acts)
    ensures var e := Exec(s, acts);
            && |e.mon.puts| - |e.mon.gets| == e.counter + |e.owing| + (if e.pc.HasToken? then 1 else 0)
            && !e.pc.Asleep?
            && e.eventVal == 1
            && e.mon.gets <= e.mon.puts
            && e.counter < |e.mon.ring.slots|
  {
    LockedRing.InitHasInv(s.mon);
    RunKeepsInv(s, acts);
  }

  /** Some run violates the receiver's assertion that it reads 1. */
  ghost predicate CanMisread<M(!new)>(s: State<M>) {
    exists acts :: Runnable(s, acts) && Exec(s, acts).eventVal != 1
  }

  lemma MisreadsOne<M(!new)>(s: State<M>, a: Action<M>)
    requires Enabled(s, a) && CanMisread(Apply(s, a))
    ensures CanMisread(s)
  {
    var acts :| Runnable(Apply(s, a), acts) && Exec(Apply(s, a), acts).eventVal != 1;
    assert ([a] + acts)[1..] == acts;
    assert Runnable(s, [a] + acts);
  }

  /** A sender that finds room stores its message. */
  lemma SendStores<M>(s: State<M>, t: Tid, m: M)
    requires s.mon.ring.Valid() && |s.mon.ring.Contents()| < |s.mon.ring.slots| - 1
    requires s.mon.notEmpty == Condvar({}, {}) && s.mon.notFull == Condvar({}, {})
    requires t != RECEIVER && t !in s.owing
    ensures Enabled(s, Send(t, m, 0))
    ensures var e := Apply(s, Send(t, m, 0));
            && e == s.(mon := e.mon, owing := s.owing + {t})
            && e.mon.ring.Valid() && |e.mon.ring.slots| == |s.mon.ring.slots|
            && |e.mon.ring.Contents()| == |s.mon.ring.Contents()| + 1
            && e.mon.notEmpty == s.mon.notEmpty && e.mon.notFull == s.mon.notFull
  {
    PutSectionEffect(s.mon, t, m, true, 0);
  }

  /** Two messages are announced before the receiver reads a plain eventfd. */
  lemma PlainMisreads<M(!new)>(s: State<M>, m: M)
    requires Init(s) && !Counts(s)
    ensures CanMisread(s)
  {
    SendStores(s, 1, m);
    var s1 := Apply(s, Send(1, m, 0));
    SendStores(s1, 2, m);
    var s2 := Apply(s1, Send(2, m, 0));
    var s3 := Apply(s2, Write(1));
    var s4 := Apply(s3, Write(2));
    var s5 := Apply(s4, Read);
    assert Runnable(s5, []) && Exec(s5, []) == s5 && s5.eventVal == 2;
    MisreadsOne(s4, Read);
    MisreadsOne(s3, Write(2));
    MisreadsOne(s2, Write(1));
    MisreadsOne(s1, Send(2, m, 0));
    MisreadsOne(s, Send(1, m, 0));
  }

  /** The receiver's assertion that each read yields 1 can fail exactly when the
      eventfd is not a semaphore and the queue holds more than one message. */
  lemma MisreadsIff<M(!new)>(s: State<M>, m: M)
    requires Init(s)
    ensures CanMisread(s) <==> !s.semaphore && |s.mon.ring.slots| > 2
  {
    if Counts(s) {
      forall acts | Runnable(s, acts) ensures Exec(s, acts).eventVal == 1 {
        MailboxIsSafe(s, acts);
      }
    } else {
      PlainMisreads(s, m);
    }
  }

  // ---- a mailbox is a run of the monitor -----------------------------------

  /** The critical sections among the actions of a run, with their arguments. */
  function MonitorSteps<M>(acts: seq<Action<M>>): seq<LockedRing.Action<M>> {
    if acts == [] then [] else
      var first: seq<LockedRing.Action<M>> :=
        match acts[0]
        case Send(t, m, w) => [Put(t, m, true, w)]
        case ResumeSend(t, w) => [ResumePut(t, w)]
        case SpuriousSend(t) => [SpuriousPut(t)]
        case Take(w) => [Get(RECEIVER, true, w)]
        case _ => [];
      first + MonitorSteps(acts[1..])
  }

  /** Every run of senders and receiver is a run of the locked queue, so all that
      is proved of that holds here: in particular a sender that had to sleep
      stores the message it came with. */
  lemma {:induction false} MailboxRunsMonitor<M>(s: State<M>, acts: seq<Action<M>>)
    requires Runnable(s, acts)
    ensures LockedRing.Runnable(s.mon, MonitorSteps(acts))
    ensures LockedRing.Exec(s.mon, MonitorSteps(acts)) == Exec(s, acts).mon
    decreases |acts|
  {
    if acts != [] {
      var rest := MonitorSteps(acts[1..]);
      MailboxRunsMonitor(Apply(s, acts[0]), acts[1..]);
      if acts[0].Write? || acts[0].Read? || acts[0].Rearm? {
        assert [] + rest == rest;
      } else {
        var a := MonitorSteps(acts)[0];
        assert ([a] + rest)[1..] == rest;
      }
    }
  }

  /** Nobody waits for anybody else's leave: every thread that is not asleep, and
      the receiver whenever there is something to read, may take its next step. */
  lemma EachMayMove<M>(s: State<M>, t: Tid, m: M) returns (putter: Tid)
    requires Inv(s)
    ensures t != RECEIVER && t !in s.owing && LockedRing.Free(s.mon, t) ==> Enabled(s, Send(t, m, 0))
    ensures t in s.mon.notFull.woken ==> Enabled(s, ResumeSend(t, 0))
    ensures t in s.mon.notFull.waiting ==> Enabled(s, SpuriousSend(t))
    ensures t in s.owing ==> Enabled(s, Write(t))
    ensures s.pc.Armed? && s.counter > 0 ==> Enabled(s, Read)
    ensures s.pc.HasToken? ==> Enabled(s, Take(putter))
    ensures s.pc.Handling? ==> Enabled(s, Rearm)
  {
    putter := Pick(s.mon.notFull);
    assert t in s.mon.notFull.woken ==> s.mon.notFull.Blocked(t);
  }

  // ---- a mailbox is a FIFO channel -----------------------------------------

  /** The step stores a message... */
  predicate Stores<M>(s: State<M>, a: Action<M>) {
    Enabled(s, a) && (a.Send? || a.ResumeSend?) && !s.mon.ring.Full()
  }

  /** ... and this is the one. */
  function Message<M>(s: State<M>, a: Action<M>): M
    requires Stores(s, a)
  {
    if a.Send? then a.m else s.mon.args[a.t]
  }

  ghost function Queue<M>(s: State<M>): seq<M>
    requires s.mon.ring.Valid()
  {
    s.mon.ring.Contents()
  }

  /** Seen from outside, each step of each thread appends one message at the end,
      removes the oldest one, or changes nothing. */
  lemma StepIsChannelStep<M>(s: State<M>, a: Action<M>)
    requires Inv(s) && Enabled(s, a)
    ensures var e := Apply(s, a);
            && e.mon.ring.Valid()
            && if Stores(s, a) then Queue(e) == Queue(s) + [Message(s, a)]
               else if a.Take? then Queue(s) != [] && Queue(e) == Queue(s)[1..]
               else Queue(e) == Queue(s)
  {
    hide LockedRing.Inv;
    FullAndEmpty(s.mon.ring);
    match a
    case Send(t, m, w) => PutSectionEffect(s.mon, t, m, true, w);
    case ResumeSend(t, w) => PutSectionEffect(s.mon.(notFull := s.mon.notFull.Resume(t)), t, s.mon.args[t], true, w);
    case Take(w) => TakeSucceeds(s, w);
    case _ =>
  }

  // ---- every message is eventually handled ---------------------------------

  /** The steps the system still takes when nobody sends anything new and no
      thread wakes for nothing. */
  predicate Drains<M>(a: Action<M>) {
    !a.Send? && !a.SpuriousSend?
  }

  ghost predicate Delivered<M>(s: State<M>) {
    && s.mon.notFull == Condvar({}, {})
    && s.owing == {} && s.counter == 0 && s.pc.Armed?
    && s.mon.gets == s.mon.puts
  }

  /** Unless everything is delivered, some thread can move. */
  lemma NeverStranded<M>(s: State<M>) returns (a: Action<M>)
    requires Inv(s) && |s.mon.ring.slots| >= 2 && !Delivered(s)
    ensures Enabled(s, a) && Drains(a)
  {
    var sleepers := s.mon.notFull.waiting;
    var w: Tid := if sleepers == {} then 0 else var w :| w in sleepers; w;
    if s.pc.HasToken? {
      return Take(w);
    } else if s.pc.Handling? {
      return Rearm;
    } else if s.owing != {} {
      var t :| t in s.owing;
      return Write(t);
    } else if s.mon.notFull.woken != {} {
      var t :| t in s.mon.notFull.woken;
      return ResumeSend(t, 0);
    } else {
      assert s.counter == |s.mon.ring.Contents()|;
      return Read;
    }
  }

  /** How much work is left: a bound on the number of draining steps. */
  ghost function Rank<M>(s: State<M>): nat
    requires s.mon.ring.Valid()
  {
    10 * |s.mon.notFull.waiting| + 11 * |s.mon.notFull.woken| + 4 * |s.mon.ring.Contents()| + |s.owing|
    + match s.pc case Armed => 2 case HasToken => 1 case Asleep => 0 case Handling => 3
  }

  lemma DisjointSleepers<M>(s: LockedRing.State<M>)
    requires LockedRing.Inv(s)
    ensures s.notFull.waiting !! s.notFull.woken
  {
  }

  lemma TakeDescends<M>(s: State<M>, w: Tid)
    requires Inv(s) && Enabled(s, Take(w))
    ensures Rank(Apply(s, Take(w))) < Rank(s)
  {
    hide LockedRing.Inv, LockedRing.GetSection;
    TakeSucceeds(s, w);
    var c := s.mon.notFull;
    DisjointSleepers(s.mon);
    if w in c.waiting {
      assert |c.waiting - {w}| == |c.waiting| - 1;
      assert |c.woken + {w}| == |c.woken| + 1;
    }
  }

  lemma ResumeDescends<M>(s: State<M>, t: Tid, w: Tid)
    requires Inv(s) && Enabled(s, ResumeSend(t, w))
    ensures Apply(s, ResumeSend(t, w)).mon.ring.Valid()
    ensures Rank(Apply(s, ResumeSend(t, w))) < Rank(s)
  {
    var c := s.mon.notFull;
    PutOutcome(s.mon.(notFull := c.Resume(t)), t, s.mon.args[t], w);
    assert |c.woken - {t}| == |c.woken| - 1;
    assert |c.waiting + {t}| == |c.waiting| + 1;
    assert |s.owing + {t}| == |s.owing| + 1;
  }

  /** Draining cannot go on forever. */
  lemma DrainDescends<M>(s: State<M>, a: Action<M>)
    requires Inv(s) && Enabled(s, a) && Drains(a)
    ensures Inv(Apply(s, a)) && Rank(Apply(s, a)) < Rank(s)
  {
    StepKeepsInv(s, a);
    match a
    case ResumeSend(t, w) => ResumeDescends(s, t, w);
    case Write(t) => assert |s.owing - {t}| == |s.owing| - 1;
    case Read =>
    case Take(w) => TakeDescends(s, w);
    case Rearm =>
  }

  /** A blocked sender's message is kept until it is stored, and then stays. */
  ghost predicate Carries<M>(s: State<M>, t: Tid, m: M) {
    m in s.mon.puts || (s.mon.notFull.Blocked(t) && t in s.mon.args && s.mon.args[t] == m)
  }

  lemma StepCarries<M>(s: State<M>, a: Action<M>, t: Tid, m: M)
    requires Inv(s) && Enabled(s, a) && Carries(s, t, m)
    ensures Carries(Apply(s, a), t, m)
  {
    match a
    case Send(u, x, w) => PutOutcome(s.mon, u, x, w);
    case ResumeSend(u, w) => PutOutcome(s.mon.(notFull := s.mon.notFull.Resume(u)), u, s.mon.args[u], w);
    case Take(w) => TakeSucceeds(s, w);
    case _ =>
  }

  /** From any reachable state, once senders stop: every run that goes on until
      nothing more can move is finite, empties the mailbox, handles everything
      that was put in order, and releases every blocked sender with its message
      handled. */
  lemma {:induction false} DrainDelivers<M(!new)>(s: State<M>, acts: seq<Action<M>>, t: Tid, m: M)
    requires Inv(s) && |s.mon.ring.slots| >= 2 && Runnable(s, acts)
    requires forall a <- acts :: Drains(a)
    requires forall a: Action<M> :: Drains(a) ==> !Enabled(Exec(s, acts), a)
    ensures |acts| <= Rank(s)
    ensures Delivered(Exec(s, acts))
    ensures Carries(s, t, m) ==> m in Exec(s, acts).mon.gets
    decreases |acts|
  {
    if acts == [] {
      if !Delivered(s) {
        var a := NeverStranded(s);
      }
    } else {
      DrainDescends(s, acts[0]);
      StepKeepsSize(s, acts[0]);
      if Carries(s, t, m) {
        StepCarries(s, acts[0], t, m);
      }
      DrainDelivers(Apply(s, acts[0]), acts[1..], t, m);
    }
  }

  lemma StepKeepsSize<M>(s: State<M>, a: Action<M>)
    requires Enabled(s, a)
    ensures |Apply(s, a).mon.ring.slots| == |s.mon.ring.slots|
  {
  }

  // ---- the object ----------------------------------------------------------

  /** An InteractiveTask between calls: as many tokens in the eventfd as messages
      in the queue, and the handler armed. */
  class InteractiveTask<M(0)> {
    const recvMsgQueue: ConcurrentRingBuffer<M>
    var eventFd: nat
    var armed: bool

    ghost predicate Valid()
      reads this, recvMsgQueue, recvMsgQueue.buff
    {
      && recvMsgQueue.Valid() && armed
      && eventFd == |recvMsgQueue.Model().Contents()|
    }

    ghost function Messages(): seq<M>
      requires Valid()
      reads this, recvMsgQueue, recvMsgQueue.buff
    {
      recvMsgQueue.Model().Contents()
    }

    constructor (size: nat)
      requires size > 0
      ensures Valid() && Messages() == [] && fresh(recvMsgQueue) && fresh(recvMsgQueue.buff)
      ensures recvMsgQueue.buff.Length == size
    {
      recvMsgQueue := new ConcurrentRingBuffer<M>(size);
      eventFd := 0;
      armed := true;
    }

    /** Put, then write. False means the put would have to wait for room. */
    method NotifyMsg(m: M) returns (sent: bool)
      requires Valid()
      modifies this, recvMsgQueue, recvMsgQueue.buff
      ensures Valid() && sent == (|old(Messages())| < recvMsgQueue.buff.Length - 1)
      ensures Messages() == if sent then old(Messages()) + [m] else old(Messages())
    {
      sent := recvMsgQueue.PutSection(m);
      if sent {
        eventFd := eventFd + 1;
      }
    }

    /** Read, then get, then re-arm; `found` is what the blocking get relies on. */
    method OnMessage(dflt: M) returns (found: bool, m: M)
      requires Valid() && eventFd > 0
      modifies this, recvMsgQueue
      ensures Valid() && found && old(Messages()) == [m] + Messages()
    {
      armed := false;
      var (eventVal, counter) := EventFdRead(eventFd, true);
      assert eventVal == 1;
      eventFd := counter;
      found, m := recvMsgQueue.GetSection(dflt);
      armed := true;
    }
  }
}
