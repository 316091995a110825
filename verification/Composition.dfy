/** The server with its real mailboxes. In Service a mailbox is a sequence to which
    a message is appended, and from which one is taken, in one step. Here each
    worker has the bounded mailbox of module Mailbox instead, with its locked
    ring, its eventfd and its blocked senders, and the two machines run together:
    a step of the server that appends or takes a message is the step of the
    mailbox that stores or hands out that message. Every run of the composed
    machine is then a run of the server, so all that is proved of Service holds
    of it too.
  */
module Composition {
  import S = Service
  import M = Mailbox
  import LockedRing

  datatype State = State(svc: S.State, boxes: seq<M.State<S.Msg>>)

  datatype Action =
    | Local(b: S.Action)                                  // no mailbox takes part
    | Inside(w: nat, a: M.Action<S.Msg>)                  // no message is stored or taken
    | Store(w: nat, a: M.Action<S.Msg>, b: S.Action)
    | Take(w: nat, wakee: LockedRing.Tid, b: S.Action)

  /** The worker to whose mailbox a step of the server appends, and the message. */
  predicate Appends(b: S.Action, w: nat, m: S.Msg) {
    match b
    case Announce(fd, v) => v == w && m == S.NewConnect(fd)
    case RunTask(t, v) => t.conn.worker == w && m == S.MapDone(t.conn.fd, v, t)
    case _ => false
  }

  predicate Takes(b: S.Action, w: nat) {
    (b.HandleNew? || b.HandleDone?) && b.w == w
  }

  predicate UsesMailbox(b: S.Action) {
    b.Announce? || b.RunTask? || b.HandleNew? || b.HandleDone?
  }

  ghost predicate Enabled(s: State, a: Action) {
    match a
    case Local(b) => !UsesMailbox(b) && S.Enabled(s.svc, b)
    case Inside(w, x) => w < |s.boxes| && M.Enabled(s.boxes[w], x) && !M.Stores(s.boxes[w], x) && !x.Take?
    case Store(w, x, b) =>
      && w < |s.boxes| && M.Stores(s.boxes[w], x)
      && S.Enabled(s.svc, b) && Appends(b, w, M.Message(s.boxes[w], x))
    case Take(w, wakee, b) =>
      w < |s.boxes| && M.Enabled(s.boxes[w], M.Take(wakee)) && S.Enabled(s.svc, b) && Takes(b, w)
  }

  ghost function Apply(s: State, a: Action): State
    requires Enabled(s, a)
  {
    match a
    case Local(b) => s.(svc := S.Apply(s.svc, b))
    case Inside(w, x) => s.(boxes := s.boxes[w := M.Apply(s.boxes[w], x)])
    case Store(w, x, b) => State(S.Apply(s.svc, b), s.boxes[w := M.Apply(s.boxes[w], x)])
    case Take(w, wakee, b) => State(S.Apply(s.svc, b), s.boxes[w := M.Apply(s.boxes[w], M.Take(wakee))])
  }

  ghost predicate Init(s: State) {
    && S.Init(s.svc) && |s.boxes| == |s.svc.inbox|
    && forall w | 0 <= w < |s.boxes| :: M.Init(s.boxes[w]) && M.Counts(s.boxes[w])
  }

  ghost predicate Runnable(s: State, acts: seq<Action>)
    decreases |acts|
  {
    acts == [] || (Enabled(s, acts[0]) && Runnable(Apply(s, acts[0]), acts[1..]))
  }

  ghost function Exec(s: State, acts: seq<Action>): State
    requires Runnable(s, acts)
    decreases |acts|
  {
    if acts == [] then s else Exec(Apply(s, acts[0]), acts[1..])
  }

  /** Each mailbox is sound and holds what the server's sequence says. */
  ghost predicate Agree(s: State) {
    && |s.boxes| == |s.svc.inbox|
    && forall w | 0 <= w < |s.boxes| :: M.Inv(s.boxes[w]) && M.Queue(s.boxes[w]) == s.svc.inbox[w]
  }

  lemma InitAgrees(s: State)
    requires Init(s)
    ensures Agree(s)
  {
    forall w | 0 <= w < |s.boxes| ensures M.Inv(s.boxes[w]) && M.Queue(s.boxes[w]) == s.svc.inbox[w] {
      LockedRing.InitHasInv(s.boxes[w].mon);
      assert s.svc.inbox[w] in s.svc.inbox;
    }
  }

  /** What a step of the server does to the mailboxes. */
  lemma ServerStep(s: S.State, b: S.Action, w: nat)
    requires S.Enabled(s, b) && w < |s.inbox|
    ensures |S.Apply(s, b).inbox| == |s.inbox|
    ensures forall m :: Appends(b, w, m) ==> S.Apply(s, b).inbox == s.inbox[w := s.inbox[w] + [m]]
    ensures Takes(b, w) ==> s.inbox[w] != [] && S.Apply(s, b).inbox == s.inbox[w := s.inbox[w][1..]]
  {
  }

  /** One mailbox steps, and the sequence of the server follows. */
  lemma BoxAgrees(s: State, e: State, w: nat, x: M.Action<S.Msg>)
    requires Agree(s) && w < |s.boxes| && M.Enabled(s.boxes[w], x)
    requires e.boxes == s.boxes[w := M.Apply(s.boxes[w], x)]
    requires e.svc.inbox == s.svc.inbox[w := if M.Stores(s.boxes[w], x) then s.svc.inbox[w] + [M.Message(s.boxes[w], x)]
                                             else if x.Take? && s.svc.inbox[w] != [] then s.svc.inbox[w][1..]
                                             else s.svc.inbox[w]]
    ensures Agree(e)
  {
    hide M.Inv, M.Queue, M.Apply, M.Enabled, M.Stores;
    M.StepKeepsInv(s.boxes[w], x);
    M.StepIsChannelStep(s.boxes[w], x);
  }

  lemma StepAgrees(s: State, a: Action)
    requires Agree(s) && Enabled(s, a)
    ensures Agree(Apply(s, a))
  {
    hide M.Inv, M.Queue, M.Apply, M.Enabled, S.Enabled, S.Apply;
    var e := Apply(s, a);
    match a
    case Local(b) => NoMailbox(s.svc, b);
    case Inside(w, x) =>
      assert s.svc.inbox == s.svc.inbox[w := s.svc.inbox[w]];
      BoxAgrees(s, e, w, x);
    case Store(w, x, b) =>
      ServerStep(s.svc, b, w);
      BoxAgrees(s, e, w, x);
    case Take(w, wakee, b) =>
      ServerStep(s.svc, b, w);
      BoxAgrees(s, e, w, M.Take(wakee));
  }

  lemma NoMailbox(s: S.State, b: S.Action)
    requires S.Enabled(s, b) && !UsesMailbox(b)
    ensures S.Apply(s, b).inbox == s.inbox
  {
  }

  /** Whenever a receiver holds its token and its worker is free, the worker can
      take the oldest message: the server's step and the mailbox's match. */
  lemma TakeIsMatched(s: State, w: nat) returns (a: Action)
    requires Agree(s) && S.Routes(s.svc) && w < |s.boxes| && s.boxes[w].pc.HasToken? && s.svc.busy[w].Free?
    ensures s.svc.inbox[w] != [] && Enabled(s, a)
    ensures a.Take? && a.w == w && a.b == if s.svc.inbox[w][0].NewConnect? then S.HandleNew(w) else S.HandleDone(w)
  {
    var wakee := LockedRing.Pick(s.boxes[w].mon.notFull);
    assert M.Enabled(s.boxes[w], M.Take(wakee));
    M.TakeSucceeds(s.boxes[w], wakee);
    var m := s.svc.inbox[w][0];
    if m.MapDone? {
      assert m.handle in s.svc.maps[w] ==> S.Entry(s.svc, w, m.handle, s.svc.maps[w][m.handle]);
    }
    a := Take(w, wakee, if m.NewConnect? then S.HandleNew(w) else S.HandleDone(w));
  }

  /** Steps that concern one of the two machines alone are taken by it alone. */
  lemma OthersAreMatched(s: State, b: S.Action, w: nat, x: M.Action<S.Msg>)
    requires w < |s.boxes|
    ensures S.Enabled(s.svc, b) && !UsesMailbox(b) ==> Enabled(s, Local(b))
    ensures M.Enabled(s.boxes[w], x) && (x.SpuriousSend? || x.Write? || x.Read? || x.Rearm?) ==> Enabled(s, Inside(w, x))
  {
  }

  /** Whenever the server can append a message and a sender that is neither
      blocked nor owing a write comes with it, the sender either stores it in
      that step, if there is room, or goes to sleep with it. */
  lemma StoreIsMatched(s: State, b: S.Action, w: nat, m: S.Msg, t: LockedRing.Tid) returns (a: Action)
    requires Agree(s) && S.Enabled(s.svc, b) && Appends(b, w, m) && w < |s.boxes|
    requires t != M.RECEIVER && t !in s.boxes[w].owing && LockedRing.Free(s.boxes[w].mon, t)
    ensures Enabled(s, a)
    ensures a == if !s.boxes[w].mon.ring.Full() then Store(w, M.Send(t, m, 0), b) else Inside(w, M.Send(t, m, 0))
  {
    hide M.Inv, M.Enabled, S.Enabled, Appends;
    var _ := M.EachMayMove(s.boxes[w], t, m);
    a := if !s.boxes[w].mon.ring.Full() then Store(w, M.Send(t, m, 0), b) else Inside(w, M.Send(t, m, 0));
  }

  /** Dually for a sender that slept with it and has been woken. */
  lemma ResumeIsMatched(s: State, b: S.Action, w: nat, t: LockedRing.Tid) returns (a: Action)
    requires Agree(s) && w < |s.boxes| && t in s.boxes[w].mon.notFull.woken && t in s.boxes[w].mon.args
    requires S.Enabled(s.svc, b) && Appends(b, w, s.boxes[w].mon.args[t])
    ensures Enabled(s, a)
    ensures a == if !s.boxes[w].mon.ring.Full() then Store(w, M.ResumeSend(t, 0), b) else Inside(w, M.ResumeSend(t, 0))
  {
    hide M.Inv, M.Enabled, S.Enabled, Appends;
    var _ := M.EachMayMove(s.boxes[w], t, s.boxes[w].mon.args[t]);
    a := if !s.boxes[w].mon.ring.Full() then Store(w, M.ResumeSend(t, 0), b) else Inside(w, M.ResumeSend(t, 0));
  }

  /** The steps of the server in a run, in order. */
  function ServerSteps(acts: seq<Action>): seq<S.Action> {
    if acts == [] then []
    else (if acts[0].Inside? then [] else [acts[0].b]) + ServerSteps(acts[1..])
  }

  /** Every run of the composed machine, with bounded mailboxes, blocked senders
      and spurious wakeups, is a run of the server that leads to the same
      server state; and each mailbox holds at any time what the server's
      sequence says. */
  lemma {:induction false} MailboxesRefine(s: State, acts: seq<Action>)
    requires Agree(s) && Runnable(s, acts)
    ensures S.Runnable(s.svc, ServerSteps(acts))
    ensures S.Exec(s.svc, ServerSteps(acts)) == Exec(s, acts).svc
    ensures Agree(Exec(s, acts))
    decreases |acts|
  {
    if acts != [] {
      var s1 := Apply(s, acts[0]);
      StepAgrees(s, acts[0]);
      MailboxesRefine(s1, acts[1..]);
      if !acts[0].Inside? {
        assert ([acts[0].b] + ServerSteps(acts[1..]))[1..] == ServerSteps(acts[1..]);
      } else {
        assert [] + ServerSteps(acts[1..]) == ServerSteps(acts[1..]);
      }
    }
  }

  /** So results reach the connection that asked for them, or none, also when
      mailboxes are bounded and senders block on them. */
  lemma NoCrossTalk(s: State, acts: seq<Action>, w: nat)
    requires Init(s) && Runnable(s, acts) && S.Enabled(Exec(s, acts).svc, S.HandleDone(w))
    ensures var e := Exec(s, acts);
            && w < |e.boxes| && M.Inv(e.boxes[w]) && M.Queue(e.boxes[w]) != []
            && var m := M.Queue(e.boxes[w])[0];
               && m.MapDone?
               && (m.handle in e.svc.maps[w] ==> e.svc.maps[w][m.handle] == m.tag.conn)
  {
    InitAgrees(s);
    MailboxesRefine(s, acts);
    S.NoCrossTalk(s.svc, ServerSteps(acts), w);
  }

  lemma RepliesAreRight(s: State, acts: seq<Action>, c: S.Cid)
    requires Init(s) && Runnable(s, acts) && c in Exec(s, acts).svc.conns
    ensures var k := Exec(s, acts).svc.conns[c];
            |k.replies| <= |k.requests| && forall r <- k.replies :: S.Right(k.requests, r)
  {
    InitAgrees(s);
    MailboxesRefine(s, acts);
    S.CountsAndReplies(s.svc, ServerSteps(acts), c);
  }
}
