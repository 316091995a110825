/** ConcurrentRingBuffer as a monitor: any number of threads, one mutex, two
    condition variables signalled with notify_one. A step is one critical
    section, or a thread leaving a wait (because it was notified, or spuriously).
  */
module LockedRing {
  import opened Ring

  type Tid = nat

  /** A condition variable: threads still asleep, and threads taken off the
      wait queue that have not yet got the mutex back. */
  datatype Condvar = Condvar(waiting: set<Tid>, woken: set<Tid>) {

    function Wait(t: Tid): Condvar {
      Condvar(waiting + {t}, woken)
    }

    /** Wakes `wakee` if it sleeps here, otherwise nobody. */
    function Wake(wakee: Tid): Condvar {
      if wakee in waiting then Condvar(waiting - {wakee}, woken + {wakee}) else this
    }

    function Resume(t: Tid): Condvar {
      Condvar(waiting, woken - {t})
    }

    predicate Blocked(t: Tid) {
      t in waiting || t in woken
    }

    /** The choice notify_one leaves open: any sleeper, if there is one. */
    predicate MayNotify(wakee: Tid) {
      waiting != {} ==> wakee in waiting
    }
  }

  datatype State<T> = State(
    ring: Ring<T>,
    notEmpty: Condvar,
    notFull: Condvar,
    args: map<Tid, T>,    // what each blocked putter wants to store
    puts: seq<T>,         // history: everything stored
    gets: seq<T>)         // history: everything handed out

  datatype Action<T> =
    | Put(t: Tid, x: T, sync: bool, wakee: Tid)
    | Get(t: Tid, sync: bool, wakee: Tid)
    | ResumePut(t: Tid, wakee: Tid)
    | ResumeGet(t: Tid, wakee: Tid)
    | SpuriousPut(t: Tid)
    | SpuriousGet(t: Tid)

  /** The section of syncPut and asyncPut. */
  function PutSection<T>(s: State<T>, t: Tid, x: T, sync: bool, wakee: Tid): State<T>
    requires s.ring.head < |s.ring.slots|
  {
    if s.ring.Full() then
      if sync then s.(notFull := s.notFull.Wait(t), args := s.args[t := x]) else s
    else
      s.(ring := s.ring.Put(x), notEmpty := s.notEmpty.Wake(wakee), puts := s.puts + [x])
  }

  /** The section of syncGet and asyncGet. */
  function GetSection<T>(s: State<T>, t: Tid, sync: bool, wakee: Tid): State<T>
    requires s.ring.tail < |s.ring.slots|
  {
    if s.ring.Empty() then
      if sync then s.(notEmpty := s.notEmpty.Wait(t)) else s
    else
      s.(ring := s.ring.Drop(), notFull := s.notFull.Wake(wakee), gets := s.gets + [s.ring.Front()])
  }

  predicate Free<T>(s: State<T>, t: Tid) {
    !s.notEmpty.Blocked(t) && !s.notFull.Blocked(t)
  }

  predicate Enabled<T>(s: State<T>, a: Action<T>) {
    && s.ring.head < |s.ring.slots|
    && s.ring.tail < |s.ring.slots|
    && match a
       case Put(t, _, _, w) => Free(s, t) && s.notEmpty.MayNotify(w)
       case Get(t, _, w) => Free(s, t) && s.notFull.MayNotify(w)
       case ResumePut(t, w) => t in s.notFull.woken && t in s.args && s.notEmpty.MayNotify(w)
       case ResumeGet(t, w) => t in s.notEmpty.woken && s.notFull.MayNotify(w)
       case SpuriousPut(t) => t in s.notFull.waiting
       case SpuriousGet(t) => t in s.notEmpty.waiting
  }

  function Apply<T>(s: State<T>, a: Action<T>): State<T>
    requires Enabled(s, a)
  {
    match a
    case Put(t, x, sync, w) => PutSection(s, t, x, sync, w)
    case Get(t, sync, w) => GetSection(s, t, sync, w)
    case ResumePut(t, w) => PutSection(s.(notFull := s.notFull.Resume(t)), t, s.args[t], true, w)
    case ResumeGet(t, w) => GetSection(s.(notEmpty := s.notEmpty.Resume(t)), t, true, w)
    case SpuriousPut(t) => s.(notFull := s.notFull.Wake(t))
    case SpuriousGet(t) => s.(notEmpty := s.notEmpty.Wake(t))
  }

  ghost predicate Init<T>(s: State<T>) {
    && 0 < |s.ring.slots| && s.ring.head == 0 && s.ring.tail == 0
    && s.notEmpty == Condvar({}, {}) && s.notFull == Condvar({}, {})
    && s.puts == [] && s.gets == []
  }

  ghost predicate Runnable<T>(s: State<T>, acts: seq<Action<T>>)
    decreases |acts|
  {
    acts == [] || (Enabled(s, acts[0]) && Runnable(Apply(s, acts[0]), acts[1..]))
  }

  ghost function Exec<T>(s: State<T>, acts: seq<Action<T>>): State<T>
    requires Runnable(s, acts)
    decreases |acts|
  {
    if acts == [] then s else Exec(Apply(s, acts[0]), acts[1..])
  }

  /** What is stored is what was put and not yet handed out, in that order. */
  ghost predicate Fifo<T>(s: State<T>) {
    s.ring.Valid() && s.puts == s.gets + s.ring.Contents()
  }

  /** A sleeper on `c` is excused only while `available` units are already
      promised to threads on their way back. */
  ghost predicate Promised(c: Condvar, available: nat) {
    c.waiting !! c.woken && (c.waiting != {} ==> available <= |c.woken|)
  }

  ghost predicate NoLostWakeup<T>(s: State<T>) {
    && s.ring.Valid()
    && Promised(s.notEmpty, |s.ring.Contents()|)
    && Promised(s.notFull, |s.ring.slots| - 1 - |s.ring.Contents()|)
  }

  ghost predicate Threads<T>(s: State<T>) {
    && (forall t :: s.notFull.Blocked(t) ==> t in s.args)
    && (forall t :: s.notEmpty.Blocked(t) ==> !s.notFull.Blocked(t))
  }

  ghost predicate Inv<T>(s: State<T>) {
    Fifo(s) && NoLostWakeup(s) && Threads(s)
  }

  /** notify_one pays for one more available unit. */
  lemma WakePays(c: Condvar, w: Tid, available: nat)
    requires Promised(c, available) && c.MayNotify(w)
    ensures Promised(c.Wake(w), available + 1)
  {
  }

  /** A spurious wakeup promises more than there is, never less. */
  lemma SpuriousIsHarmless(c: Condvar, w: Tid, available: nat)
    requires Promised(c, available)
    ensures Promised(c.Wake(w), available)
  {
  }

  /** What the put section does to the stored sequence and to the other side. */
  lemma PutSectionEffect<T>(s: State<T>, t: Tid, x: T, sync: bool, w: Tid)
    requires s.ring.Valid()
    ensures var s' := PutSection(s, t, x, sync, w); var items := s.ring.Contents();
            && s'.ring.Valid() && |s'.ring.slots| == |s.ring.slots|
            && if |items| == |s.ring.slots| - 1 then
                 s' == if sync then s.(notFull := s.notFull.Wait(t), args := s.args[t := x]) else s
               else
                 && s'.ring.Contents() == items + [x]
                 && s' == s.(ring := s'.ring, notEmpty := s.notEmpty.Wake(w), puts := s.puts + [x])
  {
    FullAndEmpty(s.ring);
    if !s.ring.Full() {
      PutAppends(s.ring, x);
    }
  }

  lemma GetSectionEffect<T>(s: State<T>, t: Tid, sync: bool, w: Tid)
    requires s.ring.Valid()
    ensures var s' := GetSection(s, t, sync, w); var items := s.ring.Contents();
            && s'.ring.Valid() && |s'.ring.slots| == |s.ring.slots|
            && if items == [] then
                 s' == if sync then s.(notEmpty := s.notEmpty.Wait(t)) else s
               else
                 && s'.ring.Contents() == items[1..]
                 && s' == s.(ring := s'.ring, notFull := s.notFull.Wake(w), gets := s.gets + [items[0]])
  {
    FullAndEmpty(s.ring);
    if !s.ring.Empty() {
      DropRemovesFront(s.ring);
    }
  }

  lemma SectionsKeepThreads<T>(s: State<T>, t: Tid, x: T, sync: bool, w: Tid)
    requires s.ring.Valid() && Threads(s) && Free(s, t)
    ensures Threads(PutSection(s, t, x, sync, w)) && Threads(GetSection(s, t, sync, w))
  {
  }

  lemma PutSectionKeepsInv<T>(s: State<T>, t: Tid, x: T, sync: bool, w: Tid)
    requires Fifo(s) && Threads(s) && Free(s, t) && s.notEmpty.MayNotify(w)
    requires Promised(s.notEmpty, |s.ring.Contents()|)
    requires s.notFull.waiting !! s.notFull.woken
    requires var free := |s.ring.slots| - 1 - |s.ring.Contents()|;
             s.notFull.waiting != {} ==> free <= |s.notFull.woken| + if sync then 1 else 0
    ensures Inv(PutSection(s, t, x, sync, w))
  {
    hide PutSection;
    SectionsKeepThreads(s, t, x, sync, w);
    PutSectionEffect(s, t, x, sync, w);
    var s', items := PutSection(s, t, x, sync, w), s.ring.Contents();
    if |items| < |s.ring.slots| - 1 {
      WakePays(s.notEmpty, w, |items|);
      assert Fifo(s') by {
        assert s'.puts == s.gets + (items + [x]);
      }
      assert NoLostWakeup(s');
    }
  }

  lemma GetSectionKeepsInv<T>(s: State<T>, t: Tid, sync: bool, w: Tid)
    requires Fifo(s) && Threads(s) && Free(s, t) && s.notFull.MayNotify(w)
    requires Promised(s.notFull, |s.ring.slots| - 1 - |s.ring.Contents()|)
    requires s.notEmpty.waiting !! s.notEmpty.woken
    requires s.notEmpty.waiting != {} ==> |s.ring.Contents()| <= |s.notEmpty.woken| + if sync then 1 else 0
    ensures Inv(GetSection(s, t, sync, w))
  {
    hide GetSection;
    SectionsKeepThreads(s, t, s.ring.Front(), sync, w);
    GetSectionEffect(s, t, sync, w);
    var s', items := GetSection(s, t, sync, w), s.ring.Contents();
    if items != [] {
      WakePays(s.notFull, w, |s.ring.slots| - 1 - |items|);
      assert Fifo(s') by {
        assert s.gets + items == s.gets + [items[0]] + items[1..];
      }
      assert NoLostWakeup(s');
    }
  }

  lemma ResumePutKeepsInv<T>(s: State<T>, t: Tid, w: Tid)
    requires Inv(s) && Enabled(s, ResumePut(t, w))
    ensures Inv(Apply(s, ResumePut(t, w)))
  {
    var s0 := s.(notFull := s.notFull.Resume(t));
    assert Fifo(s0) && Free(s0, t);
    assert Threads(s0);
    assert |s.notFull.woken| == |s0.notFull.woken| + 1;
    PutSectionKeepsInv(s0, t, s.args[t], true, w);
  }

  lemma ResumeGetKeepsInv<T>(s: State<T>, t: Tid, w: Tid)
    requires Inv(s) && Enabled(s, ResumeGet(t, w))
    ensures Inv(Apply(s, ResumeGet(t, w)))
  {
    var s0 := s.(notEmpty := s.notEmpty.Resume(t));
    assert Fifo(s0) && Free(s0, t);
    assert Threads(s0);
    assert |s.notEmpty.woken| == |s0.notEmpty.woken| + 1;
    GetSectionKeepsInv(s0, t, true, w);
  }

  lemma SpuriousPutKeepsInv<T>(s: State<T>, t: Tid)
    requires Inv(s) && Enabled(s, SpuriousPut(t))
    ensures Inv(s.(notFull := s.notFull.Wake(t)))
  {
    SpuriousIsHarmless(s.notFull, t, |s.ring.slots| - 1 - |s.ring.Contents()|);
    assert Threads(s.(notFull := s.notFull.Wake(t)));
  }

  lemma SpuriousGetKeepsInv<T>(s: State<T>, t: Tid)
    requires Inv(s) && Enabled(s, SpuriousGet(t))
    ensures Inv(s.(notEmpty := s.notEmpty.Wake(t)))
  {
    SpuriousIsHarmless(s.notEmpty, t, |s.ring.Contents()|);
    assert Threads(s.(notEmpty := s.notEmpty.Wake(t)));
  }

  /** Every critical section and every wakeup keeps the invariant. */
  lemma StepKeepsInv<T>(s: State<T>, a: Action<T>)
    requires Inv(s) && Enabled(s, a)
    ensures Inv(Apply(s, a))
  {
    match a
    case Put(t, x, sync, w) => PutSectionKeepsInv(s, t, x, sync, w);
    case Get(t, sync, w) => GetSectionKeepsInv(s, t, sync, w);
    case ResumePut(t, w) => ResumePutKeepsInv(s, t, w);
    case ResumeGet(t, w) => ResumeGetKeepsInv(s, t, w);
    case SpuriousPut(t) => SpuriousPutKeepsInv(s, t);
    case SpuriousGet(t) => SpuriousGetKeepsInv(s, t);
  }

  /** No step changes the size of the block. */
  lemma StepKeepsSize<T>(s: State<T>, a: Action<T>)
    requires Enabled(s, a)
    ensures |Apply(s, a).ring.slots| == |s.ring.slots|
  {
  }

  lemma {:induction false} RunKeepsInv<T>(s: State<T>, acts: seq<Action<T>>)
    requires Inv(s) && Runnable(s, acts)
    ensures Inv(Exec(s, acts)) && |Exec(s, acts).ring.slots| == |s.ring.slots|
    decreases |acts|
  {
    if acts != [] {
      StepKeepsInv(s, acts[0]);
      StepKeepsSize(s, acts[0]);
      RunKeepsInv(Apply(s, acts[0]), acts[1..]);
    }
  }

  lemma InitHasInv<T>(s: State<T>)
    requires Init(s)
    ensures Inv(s)
  {
  }

  /** Over every run of every mix of sync and async calls: elements come out in
      the order they went in, none lost, duplicated or invented, and the block
      never holds more than one less than its size. */
  lemma QueueIsFifo<T>(s: State<T>, acts: seq<Action<T>>)
    requires Init(s) && Runnable(s, acts)
    ensures var e := Exec(s, acts);
            e.gets <= e.puts && |e.puts| - |e.gets| <= |s.ring.slots| - 1
  {
    InitHasInv(s);
    RunKeepsInv(s, acts);
  }

  /** Over every run: a getter sleeps un-notified beside stored elements, or a
      putter beside free slots, only while at least that many others have been
      notified and are on their way. */
  lemma SleepersAreCovered<T>(s: State<T>, acts: seq<Action<T>>)
    requires Init(s) && Runnable(s, acts)
    ensures var e := Exec(s, acts); var items := |e.puts| - |e.gets|;
            && (e.notEmpty.waiting != {} ==> items <= |e.notEmpty.woken|)
            && (e.notFull.waiting != {} ==> |s.ring.slots| - 1 - items <= |e.notFull.woken|)
  {
    InitHasInv(s);
    RunKeepsInv(s, acts);
  }

  // ---- what each call does -------------------------------------------------

  ghost predicate SameBut<T>(s: State<T>, e: State<T>, t: Tid, wakee: Tid) {
    forall u | u != t && u != wakee ::
      && (u in e.notEmpty.waiting <==> u in s.notEmpty.waiting) && (u in e.notEmpty.woken <==> u in s.notEmpty.woken)
      && (u in e.notFull.waiting <==> u in s.notFull.waiting) && (u in e.notFull.woken <==> u in s.notFull.woken)
      && (u in s.args ==> u in e.args && e.args[u] == s.args[u])
  }

  /** A put of x by thread t, at its call or when it resumes: with room, x becomes
      the newest element, t is free, and a sleeping getter, if there is one, is
      woken; without room, nothing is stored, and t sleeps if the call is
      synchronous. */
  ghost predicate PutDone<T>(s: State<T>, e: State<T>, t: Tid, x: T, sync: bool, w: Tid) {
    && s.ring.Valid() && e.ring.Valid() && |e.ring.slots| == |s.ring.slots| && e.gets == s.gets
    && if |s.ring.Contents()| < |s.ring.slots| - 1 then
         && e.ring.Contents() == s.ring.Contents() + [x] && e.puts == s.puts + [x] && Free(e, t)
         && (s.notEmpty.waiting != {} ==> w in s.notEmpty.waiting && w in e.notEmpty.woken && w !in e.notEmpty.waiting)
         && SameBut(s, e, t, if s.notEmpty.waiting == {} then t else w)
       else
         && e.ring.Contents() == s.ring.Contents() && e.puts == s.puts && SameBut(s, e, t, t)
         && (sync <==> e.notFull.Blocked(t)) && !e.notEmpty.Blocked(t)
         && (sync ==> t in e.notFull.waiting && t !in e.notFull.woken && t in e.args && e.args[t] == x)
  }

  /** A get by thread t: with something stored, the oldest element is handed out,
      t is free, and a sleeping putter, if there is one, is woken; with nothing
      stored, nothing is handed out, and t sleeps if the call is synchronous. */
  ghost predicate GetDone<T>(s: State<T>, e: State<T>, t: Tid, sync: bool, w: Tid) {
    && s.ring.Valid() && e.ring.Valid() && |e.ring.slots| == |s.ring.slots| && e.puts == s.puts
    && if s.ring.Contents() != [] then
         && s.ring.Contents() == [s.ring.Contents()[0]] + e.ring.Contents()
         && e.gets == s.gets + [s.ring.Contents()[0]] && Free(e, t)
         && (s.notFull.waiting != {} ==> w in s.notFull.waiting && w in e.notFull.woken && w !in e.notFull.waiting)
         && SameBut(s, e, t, if s.notFull.waiting == {} then t else w)
       else
         && e.ring.Contents() == [] && e.gets == s.gets && SameBut(s, e, t, t)
         && (sync <==> e.notEmpty.Blocked(t)) && !e.notFull.Blocked(t)
         && (sync ==> t in e.notEmpty.waiting && t !in e.notEmpty.woken)
  }

  ghost predicate Done<T>(s: State<T>, a: Action<T>, e: State<T>) {
    match a
    case Put(t, x, sync, w) => PutDone(s, e, t, x, sync, w)
    case ResumePut(t, w) => t in s.args && PutDone(s, e, t, s.args[t], true, w)
    case Get(t, sync, w) => GetDone(s, e, t, sync, w)
    case ResumeGet(t, w) => GetDone(s, e, t, true, w)
    case SpuriousPut(t) =>
      e == s.(notFull := e.notFull) && SameBut(s, e, t, t) && t in e.notFull.woken && t !in e.notFull.waiting
    case SpuriousGet(t) =>
      e == s.(notEmpty := e.notEmpty) && SameBut(s, e, t, t) && t in e.notEmpty.woken && t !in e.notEmpty.waiting
  }

  lemma PutSectionDone<T>(s: State<T>, t: Tid, x: T, sync: bool, w: Tid)
    requires s.ring.Valid() && Free(s, t) && s.notEmpty.MayNotify(w)
    ensures PutDone(s, PutSection(s, t, x, sync, w), t, x, sync, w)
  {
    hide PutSection;
    PutSectionEffect(s, t, x, sync, w);
  }

  lemma GetSectionDone<T>(s: State<T>, t: Tid, sync: bool, w: Tid)
    requires s.ring.Valid() && Free(s, t) && s.notFull.MayNotify(w)
    ensures GetDone(s, GetSection(s, t, sync, w), t, sync, w)
  {
    hide GetSection;
    GetSectionEffect(s, t, sync, w);
  }

  /** A thread that resumes is free while it holds the mutex again. */
  lemma ResumesFree<T>(s: State<T>, t: Tid)
    requires Inv(s)
    ensures t in s.notFull.woken ==> Free(s.(notFull := s.notFull.Resume(t)), t)
    ensures t in s.notEmpty.woken ==> Free(s.(notEmpty := s.notEmpty.Resume(t)), t)
  {
  }

  lemma ResumePutDone<T>(s: State<T>, t: Tid, w: Tid)
    requires Inv(s) && Enabled(s, ResumePut(t, w))
    ensures PutDone(s, Apply(s, ResumePut(t, w)), t, s.args[t], true, w)
  {
    hide PutSection;
    var s0 := s.(notFull := s.notFull.Resume(t));
    ResumesFree(s, t);
    PutSectionDone(s0, t, s.args[t], true, w);
  }

  lemma ResumeGetDone<T>(s: State<T>, t: Tid, w: Tid)
    requires Inv(s) && Enabled(s, ResumeGet(t, w))
    ensures GetDone(s, Apply(s, ResumeGet(t, w)), t, true, w)
  {
    hide GetSection;
    var s0 := s.(notEmpty := s.notEmpty.Resume(t));
    ResumesFree(s, t);
    GetSectionDone(s0, t, true, w);
  }

  lemma StepIsDone<T>(s: State<T>, a: Action<T>)
    requires Inv(s) && Enabled(s, a)
    ensures Done(s, a, Apply(s, a))
  {
    match a
    case Put(t, x, sync, w) => PutSectionDone(s, t, x, sync, w);
    case ResumePut(t, w) => ResumePutDone(s, t, w);
    case Get(t, sync, w) => GetSectionDone(s, t, sync, w);
    case ResumeGet(t, w) => ResumeGetDone(s, t, w);
    case _ =>
  }

  /** In every reachable state every step of every call does what the call is for. */
  lemma CallsAreDone<T>(s: State<T>, acts: seq<Action<T>>, a: Action<T>)
    requires Init(s) && Runnable(s, acts) && Enabled(Exec(s, acts), a)
    ensures Done(Exec(s, acts), a, Apply(Exec(s, acts), a))
  {
    InitHasInv(s);
    RunKeepsInv(s, acts);
    StepIsDone(Exec(s, acts), a);
  }

  /** What thread t last called put with, read off the actions of a run. */
  ghost function LastPut<T>(acts: seq<Action<T>>, t: Tid): seq<T> {
    if acts == [] then [] else
      var n := |acts| - 1;
      if acts[n].Put? && acts[n].t == t then [acts[n].x] else LastPut(acts[..n], t)
  }

  ghost predicate CarryTheirs<T>(s: State<T>, acts: seq<Action<T>>) {
    forall t :: s.notFull.Blocked(t) ==> t in s.args && LastPut(acts, t) == [s.args[t]]
  }

  lemma StepCarriesTheirs<T>(s: State<T>, before: seq<Action<T>>, a: Action<T>)
    requires Inv(s) && Enabled(s, a) && CarryTheirs(s, before)
    ensures CarryTheirs(Apply(s, a), before + [a])
  {
    assert (before + [a])[..|before|] == before;
  }

  lemma {:induction false} RunCarriesTheirs<T>(s: State<T>, before: seq<Action<T>>, acts: seq<Action<T>>)
    requires Inv(s) && Runnable(s, acts) && CarryTheirs(s, before)
    ensures CarryTheirs(Exec(s, acts), before + acts)
    decreases |acts|
  {
    if acts == [] {
      assert before + acts == before;
    } else {
      StepKeepsInv(s, acts[0]);
      StepCarriesTheirs(s, before, acts[0]);
      RunCarriesTheirs(Apply(s, acts[0]), before + [acts[0]], acts[1..]);
      assert before + [acts[0]] + acts[1..] == before + acts;
    }
  }

  /** Over every run a blocked putter still carries the element it came with, so
      that is what it stores when it resumes. */
  lemma PuttersCarryTheirs<T>(s: State<T>, acts: seq<Action<T>>, t: Tid)
    requires Init(s) && Runnable(s, acts) && Exec(s, acts).notFull.Blocked(t)
    ensures t in Exec(s, acts).args && LastPut(acts, t) == [Exec(s, acts).args[t]]
  {
    InitHasInv(s);
    RunCarriesTheirs(s, [], acts);
    assert [] + acts == acts;
  }

  // ---- woken threads come through ------------------------------------------

  lemma Pick(c: Condvar) returns (w: Tid)
    ensures c.MayNotify(w)
  {
    w := if c.waiting == {} then 0 else var u :| u in c.waiting; u;
  }

  /** Whoever can act may act: a free thread may call, a woken one resume. */
  lemma CallsAreEnabled<T>(s: State<T>, t: Tid, x: T, sync: bool) returns (getter: Tid, putter: Tid)
    requires Inv(s)
    ensures Free(s, t) ==> Enabled(s, Put(t, x, sync, getter)) && Enabled(s, Get(t, sync, putter))
    ensures t in s.notFull.woken ==> Enabled(s, ResumePut(t, getter))
    ensures t in s.notEmpty.woken ==> Enabled(s, ResumeGet(t, putter))
    ensures t in s.notFull.waiting ==> Enabled(s, SpuriousPut(t))
    ensures t in s.notEmpty.waiting ==> Enabled(s, SpuriousGet(t))
  {
    getter := Pick(s.notEmpty);
    putter := Pick(s.notFull);
    assert s.notFull.Blocked(t) <==> t in s.notFull.woken || t in s.notFull.waiting;
  }

  predicate Resumes<T>(a: Action<T>) {
    a.ResumePut? || a.ResumeGet?
  }

  function Getters<T>(s: State<T>): nat {
    |s.notEmpty.waiting| + |s.notEmpty.woken|
  }

  function Putters<T>(s: State<T>): nat {
    |s.notFull.waiting| + |s.notFull.woken|
  }

  function Rank<T>(s: State<T>): nat {
    2 * Getters(s) + 2 * Putters(s) + |s.notEmpty.woken| + |s.notFull.woken|
  }

  lemma WakeMovesOne(c: Condvar, w: Tid)
    requires c.waiting !! c.woken
    ensures var d := c.Wake(w);
            |d.waiting| + |d.woken| == |c.waiting| + |c.woken| && |d.woken| <= |c.woken| + 1
  {
    if w in c.waiting {
      assert |c.waiting - {w}| == |c.waiting| - 1 && |c.woken + {w}| == |c.woken| + 1;
    }
  }

  lemma ResumeLeaves(c: Condvar, t: Tid)
    requires t in c.woken && c.waiting !! c.woken
    ensures |c.Resume(t).woken| == |c.woken| - 1 && |c.Resume(t).Wait(t).waiting| == |c.waiting| + 1
  {
    assert |c.woken - {t}| == |c.woken| - 1 && |c.waiting + {t}| == |c.waiting| + 1;
  }

  /** Resuming uses up rank, and who leaves has done its put or get. */
  lemma ResumeDescends<T>(s: State<T>, a: Action<T>)
    requires Inv(s) && Enabled(s, a) && Resumes(a)
    ensures var e := Apply(s, a);
            && Rank(e) < Rank(s)
            && |e.gets| + Getters(e) == |s.gets| + Getters(s) && |e.puts| + Putters(e) == |s.puts| + Putters(s)
  {
    if a.ResumeGet? {
      ResumeLeaves(s.notEmpty, a.t);
      WakeMovesOne(s.notFull, a.wakee);
    } else {
      ResumeLeaves(s.notFull, a.t);
      WakeMovesOne(s.notEmpty, a.wakee);
    }
  }

  /** From any reachable state, when no more calls come: every run in which woken
      threads resume until nobody is woken is bounded; every thread that left
      put or got one element; getters that still sleep find nothing stored,
      putters that still sleep find no room, and with two or more slots not
      both kinds sleep. */
  lemma {:induction false} WokenComeThrough<T(!new)>(s: State<T>, acts: seq<Action<T>>)
    requires Inv(s) && Runnable(s, acts) && forall a <- acts :: Resumes(a)
    requires forall a: Action<T> :: Resumes(a) ==> !Enabled(Exec(s, acts), a)
    ensures |acts| <= Rank(s)
    ensures var e := Exec(s, acts);
            && e.notEmpty.woken == {} && e.notFull.woken == {} && e.ring.Valid()
            && |e.gets| + Getters(e) == |s.gets| + Getters(s) && |e.puts| + Putters(e) == |s.puts| + Putters(s)
            && (Getters(e) > 0 ==> e.ring.Contents() == [])
            && (Putters(e) > 0 ==> |e.ring.Contents()| == |s.ring.slots| - 1)
            && (|s.ring.slots| >= 2 ==> Getters(e) == 0 || Putters(e) == 0)
    decreases |acts|
  {
    if acts == [] {
      var getter := Pick(s.notEmpty);
      var putter := Pick(s.notFull);
      forall t ensures t !in s.notEmpty.woken && t !in s.notFull.woken {
        var put: Action<T>, get: Action<T> := ResumePut(t, getter), ResumeGet(t, putter);
        assert Resumes(put) && Resumes(get) && Exec(s, acts) == s;
        assert t in s.notFull.woken ==> s.notFull.Blocked(t);
      }
    } else {
      assert acts[0] in acts && acts == [acts[0]] + acts[1..];
      StepKeepsInv(s, acts[0]);
      StepKeepsSize(s, acts[0]);
      ResumeDescends(s, acts[0]);
      WokenComeThrough(Apply(s, acts[0]), acts[1..]);
    }
  }

  /** A putter and a getter both asleep with nobody on the way. */
  predicate Stuck<T>(s: State<T>) {
    s.notEmpty.waiting != {} && s.notFull.waiting != {} && s.notEmpty.woken == {} && s.notFull.woken == {}
  }

  ghost predicate CanStick<T(!new)>(s: State<T>) {
    exists acts :: Runnable(s, acts) && Stuck(Exec(s, acts))
  }

  lemma Prepend<T>(s: State<T>, a: Action<T>, acts: seq<Action<T>>)
    requires Enabled(s, a) && Runnable(Apply(s, a), acts)
    ensures Runnable(s, [a] + acts) && Exec(s, [a] + acts) == Exec(Apply(s, a), acts)
  {
    assert ([a] + acts)[1..] == acts;
  }

  lemma SticksOne<T(!new)>(s: State<T>, a: Action<T>)
    requires Enabled(s, a) && CanStick(Apply(s, a))
    ensures CanStick(s)
  {
    var acts :| Runnable(Apply(s, a), acts) && Stuck(Exec(Apply(s, a), acts));
    Prepend(s, a, acts);
  }

  /** With one slot, a get and then a put both go to sleep. */
  lemma OneSlotSticks<T(!new)>(s: State<T>, x: T)
    requires Init(s) && |s.ring.slots| == 1
    ensures CanStick(s)
  {
    var get, put := Get(0, true, 0), Put(1, x, true, 0);
    var s1 := s.(notEmpty := Condvar({0}, {}));
    assert Apply(s, get) == s1;
    var s2 := s1.(notFull := Condvar({1}, {}), args := s.args[1 := x]);
    assert Enabled(s1, put) && s1.ring.Full();
    assert Apply(s1, put) == s2;
    assert 0 in s2.notEmpty.waiting && 1 in s2.notFull.waiting;
    assert Runnable(s2, []) && Exec(s2, []) == s2;
    SticksOne(s1, put);
    SticksOne(s, get);
  }

  /** Such a stand-off is reachable exactly when the block has a single slot. */
  lemma StickingNeedsOneSlot<T(!new)>(s: State<T>, x: T)
    requires Init(s)
    ensures CanStick(s) <==> |s.ring.slots| == 1
  {
    forall acts | Runnable(s, acts) && Stuck(Exec(s, acts))
      ensures |s.ring.slots| == 1
    {
      SleepersAreCovered(s, acts);
      QueueIsFifo(s, acts);
    }
    if |s.ring.slots| == 1 {
      OneSlotSticks(s, x);
    }
  }
}
