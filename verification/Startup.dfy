/** TcpServer::start: the main thread starts workers + poolSize pool threads,
    posts the workers as tasks, waits in turn until each has registered with the
    message centre, and only then starts accepting. Workers run through
    InteractiveTask::start on their pool threads meanwhile, and never give the
    thread back.
  */
module Startup {
  import opened Modular

  /** The statement of InteractiveTask::start a worker comes to next. */
  datatype Next = GetThread | CreateEventFd | ArmHandler | Register | OnStart | Loop {

    function Rank(): nat {
      match this
      case GetThread => 5 case CreateEventFd => 4 case ArmHandler => 3
      case Register => 2 case OnStart => 1 case Loop => 0
    }
  }

  datatype Worker = Worker(next: Next, eventFd: bool, armed: bool, registered: bool) {

    /** Executes the next statement; getting a thread is not one of them. */
    function Advance(): Worker {
      match next
      case CreateEventFd => this.(next := ArmHandler, eventFd := true)
      case ArmHandler => this.(next := Register, armed := true)
      case Register => this.(next := OnStart, registered := true)
      case OnStart => this.(next := Loop)
      case _ => this
    }

    /** A message put now is announced on an eventfd somebody listens to. */
    predicate CanReceive() {
      eventFd && armed
    }

    /** What has been done is what comes before the next statement. */
    predicate Ordered() {
      && (eventFd <==> !next.GetThread? && !next.CreateEventFd?)
      && (armed <==> eventFd && !next.ArmHandler?)
      && (registered <==> next.OnStart? || next.Loop?)
    }
  }

  datatype State = State(
    threads: nat,          // pool threads without a task
    posted: nat,           // workers posted, in order
    taken: nat,            // workers a pool thread has taken, in order
    workers: seq<Worker>,
    seen: nat)             // registrations the main thread has waited for

  datatype Action = Post | Take | Advance(w: nat) | Seen

  predicate Accepting(s: State) {
    s.posted == |s.workers| && s.seen == |s.workers|
  }

  predicate Enabled(s: State, a: Action) {
    match a
    case Post => s.posted < |s.workers|
    case Take => s.threads > 0 && s.taken < s.posted && s.taken < |s.workers|
    case Advance(w) => w < |s.workers| && !s.workers[w].next.GetThread? && !s.workers[w].next.Loop?
    case Seen => s.posted == |s.workers| && s.seen < |s.workers| && s.workers[s.seen].registered
  }

  function Apply(s: State, a: Action): State
    requires Enabled(s, a)
  {
    match a
    case Post => s.(posted := s.posted + 1)
    case Take => s.(threads := s.threads - 1, taken := s.taken + 1, workers := s.workers[s.taken := s.workers[s.taken].(next := CreateEventFd)])
    case Advance(w) => s.(workers := s.workers[w := s.workers[w].Advance()])
    case Seen => s.(seen := s.seen + 1)
  }

  ghost predicate Init(s: State, poolSize: nat) {
    && s.threads == |s.workers| + poolSize && s.posted == 0 && s.taken == 0 && s.seen == 0
    && forall w :: 0 <= w < |s.workers| ==> s.workers[w] == Worker(GetThread, false, false, false)
  }

  ghost predicate Runnable(s: State, acts: seq<Action>)
    decreases |acts|
  {
    acts == [] || (Enabled(s, acts[0]) && Runnable(Apply(s, acts[0]), acts[1..]))
  }

  ghost function Exec(s: State, acts: seq<Action>): State
    requires Runnable(s, acts)
    decreases |acts|
  {
    if acts == [] then s else Exec(Apply(s, acts[0]), acts[1..])
  }

  ghost predicate Inv(s: State, poolSize: nat) {
    && s.taken <= s.posted <= |s.workers| && s.seen <= |s.workers|
    && (s.seen > 0 ==> s.posted == |s.workers|)
    && s.threads == |s.workers| + poolSize - s.taken
    && (forall w :: 0 <= w < |s.workers| ==> s.workers[w].Ordered() && (s.workers[w].next.GetThread? <==> s.taken <= w))
    && (forall w :: 0 <= w < s.seen ==> s.workers[w].registered)
  }

  lemma StepKeepsInv(s: State, a: Action, poolSize: nat)
    requires Inv(s, poolSize) && Enabled(s, a)
    ensures Inv(Apply(s, a), poolSize) && |Apply(s, a).workers| == |s.workers|
  {
  }

  lemma {:induction false} RunKeepsInv(s: State, acts: seq<Action>, poolSize: nat)
    requires Inv(s, poolSize) && Runnable(s, acts)
    ensures Inv(Exec(s, acts), poolSize) && |Exec(s, acts).workers| == |s.workers|
    decreases |acts|
  {
    if acts != [] {
      StepKeepsInv(s, acts[0], poolSize);
      RunKeepsInv(Apply(s, acts[0]), acts[1..], poolSize);
    }
  }

  lemma InitHasInv(s: State, poolSize: nat)
    requires Init(s, poolSize)
    ensures Inv(s, poolSize)
  {
  }

  // Where everybody is, read off the actions of a run alone.

  ghost function Count(acts: seq<Action>, a: Action): nat {
    if acts == [] then 0 else
      var n := |acts| - 1;
      Count(acts[..n], a) + if acts[n] == a then 1 else 0
  }

  /** The statement reached after n of them. */
  function After(n: nat): Next {
    match n
    case 0 => CreateEventFd case 1 => ArmHandler case 2 => Register case 3 => OnStart case _ => Loop
  }

  ghost predicate Follows(s: State, acts: seq<Action>) {
    && s.posted == Count(acts, Post) && s.taken == Count(acts, Take) && s.seen == Count(acts, Seen)
    && forall w :: 0 <= w < |s.workers| ==>
         && Count(acts, Advance(w)) <= 4
         && (w >= s.taken ==> Count(acts, Advance(w)) == 0)
         && s.workers[w].next == if w < s.taken then After(Count(acts, Advance(w))) else GetThread
  }

  lemma StepFollows(s: State, before: seq<Action>, a: Action)
    requires Follows(s, before) && Enabled(s, a)
    ensures Follows(Apply(s, a), before + [a])
  {
    assert (before + [a])[..|before|] == before;
  }

  lemma {:induction false} RunFollows(s: State, before: seq<Action>, acts: seq<Action>)
    requires Follows(s, before) && Runnable(s, acts)
    ensures Follows(Exec(s, acts), before + acts)
    decreases |acts|
  {
    if acts == [] {
      assert before + acts == before;
    } else {
      StepFollows(s, before, acts[0]);
      RunFollows(Apply(s, acts[0]), before + [acts[0]], acts[1..]);
      assert before + [acts[0]] + acts[1..] == before + acts;
    }
  }

  /** In every interleaving, the main thread has posted and waited one by one,
      waiting only after it has posted all; threads have taken workers in the
      order posted; and each worker has executed its statements in order, every
      one of them, with the effects of exactly those. */
  lemma StartupIsInOrder(s: State, acts: seq<Action>, poolSize: nat)
    requires Init(s, poolSize) && Runnable(s, acts)
    ensures var e := Exec(s, acts);
            && |e.workers| == |s.workers|
            && e.posted == Count(acts, Post) && e.taken == Count(acts, Take) && e.seen == Count(acts, Seen)
            && e.taken <= e.posted && (e.seen > 0 ==> e.posted == |s.workers|)
            && forall w :: 0 <= w < |e.workers| ==>
                 var n := Count(acts, Advance(w));
                 && e.workers[w].next == (if w < e.taken then After(n) else GetThread)
                 && e.workers[w] == Worker(e.workers[w].next, n >= 1, n >= 2, n >= 3)
  {
    InitHasInv(s, poolSize);
    RunKeepsInv(s, acts, poolSize);
    RunFollows(s, [], acts);
    assert [] + acts == acts;
  }

  /** In every interleaving: when accepting starts, every worker has its eventfd
      and its mailbox handler; and a posted worker never lacks a thread. */
  lemma AcceptAfterWorkers(s: State, acts: seq<Action>, poolSize: nat)
    requires Init(s, poolSize) && Runnable(s, acts)
    ensures var e := Exec(s, acts);
            && (Accepting(e) ==> forall w <- e.workers :: w.CanReceive())
            && (e.taken < e.posted ==> Enabled(e, Take))
  {
    InitHasInv(s, poolSize);
    RunKeepsInv(s, acts, poolSize);
  }

  /** Startup waits only where it says: the main thread for a registration, a worker
      for its thread and nothing else. */
  lemma EachMayMove(s: State, poolSize: nat, w: nat)
    requires Inv(s, poolSize) && w < |s.workers|
    ensures s.posted < |s.workers| ==> Enabled(s, Post)
    ensures s.taken < s.posted ==> Enabled(s, Take)
    ensures s.workers[w].next != GetThread && s.workers[w].next != Loop ==> Enabled(s, Advance(w))
    ensures s.posted == |s.workers| && s.seen == w && s.workers[w].registered ==> Enabled(s, Seen)
  {
  }

  ghost function Ranks(workers: seq<Worker>): nat {
    if workers == [] then 0 else workers[0].next.Rank() + Ranks(workers[1..])
  }

  lemma {:induction false} RanksDrop(workers: seq<Worker>, w: nat, x: Worker)
    requires w < |workers|
    ensures Ranks(workers[w := x]) == Ranks(workers) - workers[w].next.Rank() + x.next.Rank()
  {
    if w == 0 {
      assert workers[w := x][1..] == workers[1..];
    } else {
      assert workers[w := x][1..] == workers[1..][w - 1 := x];
      RanksDrop(workers[1..], w - 1, x);
    }
  }

  ghost function Rank(s: State): int {
    Ranks(s.workers) + 2 * |s.workers| - s.posted - s.seen
  }

  lemma StepDescends(s: State, a: Action, poolSize: nat)
    requires Inv(s, poolSize) && Enabled(s, a)
    ensures 0 <= Rank(Apply(s, a)) < Rank(s)
  {
    StepKeepsInv(s, a, poolSize);
    match a
    case Take => RanksDrop(s.workers, s.taken, s.workers[s.taken].(next := CreateEventFd));
    case Advance(w) => RanksDrop(s.workers, w, s.workers[w].Advance());
    case _ =>
  }

  /** Startup cannot stall: every run is bounded, and one that can go no further
      has the server accepting, every worker in its loop, and exactly poolSize
      threads left for other tasks. */
  lemma {:induction false} StartupCompletes(s: State, acts: seq<Action>, poolSize: nat)
    requires Inv(s, poolSize) && Runnable(s, acts)
    requires forall a: Action :: !Enabled(Exec(s, acts), a)
    ensures |acts| <= Rank(s)
    ensures var e := Exec(s, acts);
            Accepting(e) && (forall w <- e.workers :: w == Worker(Loop, true, true, true)) && e.threads == poolSize
    decreases |acts|
  {
    var e := Exec(s, acts);
    if acts == [] {
      assert e == s;
      assert !Enabled(s, Post) && !Enabled(s, Take) && !Enabled(s, Seen);
      forall w | 0 <= w < |s.workers| ensures s.workers[w] == Worker(Loop, true, true, true) {
        assert !Enabled(s, Advance(w)) && s.workers[w].Ordered();
      }
    } else {
      StepKeepsInv(s, acts[0], poolSize);
      StepDescends(s, acts[0], poolSize);
      assert e == Exec(Apply(s, acts[0]), acts[1..]);
      StartupCompletes(Apply(s, acts[0]), acts[1..], poolSize);
    }
  }

  // ---- handing out accepted connections ------------------------------------

  class NetAcceptService {
    const workers: nat
    var curServiceIndex: nat

    ghost predicate Valid()
      reads this
    {
      curServiceIndex < workers
    }

    constructor (workers: nat)
      requires workers > 0
      ensures Valid() && this.workers == workers && curServiceIndex == 0
    {
      this.workers := workers;
      curServiceIndex := 0;
    }

    method NextServiceIndex() returns (w: nat)
      requires Valid()
      modifies this
      ensures Valid() && w == curServiceIndex == (old(curServiceIndex) + 1) % workers
    {
      curServiceIndex := curServiceIndex + 1;
      if curServiceIndex == workers {
        curServiceIndex := 0;
      }
      return curServiceIndex;
    }

    /** Where the next `count` connections go. */
    method Assign(count: nat) returns (to: seq<nat>)
      requires Valid()
      modifies this
      ensures Valid() && |to| == count
      ensures forall i | 0 <= i < count :: to[i] == Turn(old(curServiceIndex), workers, i)
    {
      hide Turn;
      to := [];
      ghost var start := curServiceIndex;
      for i := 0 to count
        invariant Valid() && |to| == i
        invariant curServiceIndex == if i == 0 then start else to[i - 1]
        invariant forall j | 0 <= j < i :: to[j] == Turn(start, workers, j)
      {
        TurnFollows(start, workers, i);
        var w := NextServiceIndex();
        to := to + [w];
      }
    }
  }

  /** Who gets the i-th connection from `start` on. */
  function Turn(start: nat, n: nat, i: nat): nat
    requires n > 0
  {
    (start + 1 + i) % n
  }

  lemma TurnFollows(start: nat, n: nat, i: nat)
    requires n > 0
    ensures Turn(start, n, i) == ((if i == 0 then start else Turn(start, n, i - 1)) + 1) % n
  {
    NextIndex(start + i, n);
  }

  /** Among any `n` consecutive connections each of the n workers gets one... */
  lemma EveryWorkerHasATurn(start: nat, n: nat, w: nat) returns (i: nat)
    requires w < n
    ensures i < n && Turn(start, n, i) == w
  {
    var r, q := (start + 1) % n, (start + 1) / n;
    assert q * n + r == start + 1;
    assert (q + 1) * n == q * n + n;
    i := if w >= r then w - r else w + n - r;
    Quotient(if w >= r then q else q + 1, w, n, start + 1 + i);
  }

  /** ... and no worker gets two. */
  lemma NoWorkerHasTwoTurns(start: nat, n: nat, i: nat, j: nat)
    requires i < j < n
    ensures Turn(start, n, i) != Turn(start, n, j)
  {
    SameIndex(start + 1 + i, start + 1 + j, n);
  }
}
