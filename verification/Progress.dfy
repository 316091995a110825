/** Every map-reduce request is answered: once clients and the network stop
    acting, the workers and the pool run out of things to do after finitely many
    steps, and then each connection that is still open has its answer.
  */
module Progress {
  import opened Maxima
  import opened Service

  /** The steps the server still takes on its own. */
  predicate Drains(a: Action) {
    || a.Announce? || a.HandleNew? || a.HandleDone? || a.PostTask? || a.CountTask? || a.EndRequest?
    || a.RunTask? || a.DropTask?
  }

  ghost predicate AtRest(s: State) {
    forall a: Action :: Drains(a) ==> !Enabled(s, a)
  }

  lemma {:induction false} MaxExists(file: File) returns (v: int)
    ensures file != [] ==> IsMax(v, file)
  {
    v := 0;
    if file != [] {
      var rest := file[..|file| - 1];
      v := MaxExists(rest);
      v := if rest == [] then file[0] else Reduce(v, file[|file| - 1]);
      assert file == rest + [file[|file| - 1]];
    }
  }

  /** A worker with something to do can do it. */
  lemma WorkerCanMove(s: State, w: nat) returns (a: Action)
    requires Shape(s) && Maps(s) && Callbacks(s) && w < |s.inbox| && (s.busy[w].Posting? || s.inbox[w] != [])
    ensures Drains(a) && Enabled(s, a)
  {
    if s.busy[w].Posting? {
      assert s.busy[w].c in s.conns;
      return if s.busy[w].uncounted then CountTask(w) else if s.busy[w].rest != [] then PostTask(w) else EndRequest(w);
    } else if s.inbox[w][0].NewConnect? {
      return HandleNew(w);
    } else {
      var h := s.inbox[w][0].handle;
      assert h in s.maps[w] ==> Entry(s, w, h, s.maps[w][h]);
      return HandleDone(w);
    }
  }

  /** So can a task. */
  lemma TaskCanMove(s: State, t: Tag) returns (a: Action)
    requires Shape(s) && t in s.tasks && TaskOk(s, t)
    ensures Drains(a) && Enabled(s, a)
  {
    if s.tasks[t].Sent? {
      return DropTask(t);
    }
    var v := MaxExists(s.conns[t.conn].files[t.serial]);
    return RunTask(t, v);
  }

  /** At rest no callback is running, no mailbox holds a message, and no task
      holds a connection. */
  lemma RestIsEmpty(s: State)
    requires Routes(s) && AtRest(s)
    ensures forall w | 0 <= w < |s.inbox| :: s.busy[w].Free? && s.inbox[w] == []
    ensures s.tasks == map[]
  {
    forall w | 0 <= w < |s.inbox| ensures s.busy[w].Free? && s.inbox[w] == [] {
      if s.busy[w].Posting? || s.inbox[w] != [] {
        var a := WorkerCanMove(s, w);
      }
    }
    if t :| t in s.tasks {
      assert TaskOk(s, t);
      var a := TaskCanMove(s, t);
    }
  }

  lemma RestIsSettled(s: State, acts: seq<Action>, c: Cid)
    requires Init(s) && Runnable(s, acts) && AtRest(Exec(s, acts)) && InMap(Exec(s, acts), c)
    ensures Settled(Exec(s, acts), c)
  {
    InitHasInv(s);
    RunKeepsInv(s, acts);
    RestIsEmpty(Exec(s, acts));
  }

  /** Whenever the server has come to rest, a client that has sent any number of
      requests and whose connection is still in its worker's map has been sent a
      reply after the last of them: the maximum over all files of all of them. A
      client that has sent one request, all of whose files hold numbers, has
      been sent exactly one reply, the serial maximum. */
  lemma RequestIsAnswered(s: State, acts: seq<Action>, c: Cid)
    requires Init(s) && Runnable(s, acts) && AtRest(Exec(s, acts)) && c in Exec(s, acts).conns
    requires InMap(Exec(s, acts), c) && Exec(s, acts).conns[c].requests != []
    ensures var k := Exec(s, acts).conns[c];
            && AnswersAll(k)
            && (|k.requests| == 1 && (forall f <- k.requests[0] :: f != []) ==>
                  |k.replies| == 1 && IsMax(k.replies[0].value, Numbers(k.requests[0])))
  {
    RestIsSettled(s, acts, c);
    SettledIsAnswered(s, acts, c);
    var k := Exec(s, acts).conns[c];
    if |k.requests| == 1 && forall f <- k.requests[0] :: f != [] {
      AnswerIsSerialMax(s, acts, c);
      assert k.replies[0] in k.replies;
    }
  }

  // ---- rest is reached -----------------------------------------------------

  ghost function CallRank(b: Callback): nat {
    if b.Posting? then 1 + 6 * |b.rest| + (if b.uncounted then 1 else 0) else 0
  }

  ghost function WorkerRank(inbox: seq<seq<Msg>>, busy: seq<Callback>): nat
    requires |inbox| == |busy|
  {
    if inbox == [] then 0 else |inbox[0]| + CallRank(busy[0]) + WorkerRank(inbox[1..], busy[1..])
  }

  ghost function InStage(tasks: map<Tag, Stage>, g: Stage): set<Tag> {
    set t | t in tasks && tasks[t] == g
  }

  ghost function Unannounced(s: State): set<nat> {
    set fd | fd in s.holder && s.holder[fd] == Accepting
  }

  /** How much the server still has to do. */
  ghost function Rank(s: State): nat
    requires |s.inbox| == |s.busy|
  {
    2 * |Unannounced(s)| + WorkerRank(s.inbox, s.busy) + 3 * |InStage(s.tasks, Queued)| + |InStage(s.tasks, Sent)|
  }

  lemma {:induction false} WorkerRankChanges(inbox: seq<seq<Msg>>, busy: seq<Callback>, w: nat, q: seq<Msg>, b: Callback)
    requires |inbox| == |busy| && w < |inbox|
    ensures WorkerRank(inbox[w := q], busy[w := b]) ==
            WorkerRank(inbox, busy) - |inbox[w]| - CallRank(busy[w]) + |q| + CallRank(b)
  {
    if w == 0 {
      assert inbox[w := q][1..] == inbox[1..] && busy[w := b][1..] == busy[1..];
    } else {
      assert inbox[w := q][1..] == inbox[1..][w - 1 := q] && busy[w := b][1..] == busy[1..][w - 1 := b];
      WorkerRankChanges(inbox[1..], busy[1..], w - 1, q, b);
    }
  }

  /** The worker whose mailbox or callback a step changes. */
  function WorkerOf(a: Action): nat
    requires Drains(a) && !a.DropTask?
  {
    match a case RunTask(t, _) => t.conn.worker case Announce(_, w) => w case HandleNew(w) => w case HandleDone(w) => w
            case PostTask(w) => w case CountTask(w) => w case EndRequest(w) => w
  }

  lemma PostIsQueued(m: map<Tag, Stage>, t: Tag)
    requires t !in m
    ensures |InStage(m[t := Queued], Queued)| == |InStage(m, Queued)| + 1
    ensures InStage(m[t := Queued], Sent) == InStage(m, Sent)
  {
    assert InStage(m[t := Queued], Queued) == InStage(m, Queued) + {t};
  }

  lemma RunIsSent(m: map<Tag, Stage>, t: Tag)
    requires t in m && m[t].Queued?
    ensures |InStage(m[t := Sent], Queued)| == |InStage(m, Queued)| - 1
    ensures |InStage(m[t := Sent], Sent)| == |InStage(m, Sent)| + 1
  {
    assert InStage(m[t := Sent], Queued) == InStage(m, Queued) - {t};
    assert InStage(m[t := Sent], Sent) == InStage(m, Sent) + {t};
  }

  lemma DropIsGone(m: map<Tag, Stage>, t: Tag)
    requires t in m && m[t].Sent?
    ensures InStage(m - {t}, Queued) == InStage(m, Queued)
    ensures |InStage(m - {t}, Sent)| == |InStage(m, Sent)| - 1
  {
    assert InStage(m - {t}, Sent) == InStage(m, Sent) - {t};
  }

  lemma TasksChange(s: State, a: Action)
    requires Tasks(s) && Enabled(s, a) && Drains(a)
    ensures var m, e := s.tasks, Apply(s, a).tasks; var q, r := |InStage(m, Queued)|, |InStage(m, Sent)|;
            && |InStage(e, Queued)| == (if a.PostTask? then q + 1 else if a.RunTask? then q - 1 else q)
            && |InStage(e, Sent)| == (if a.RunTask? then r + 1 else if a.DropTask? then r - 1 else r)
  {
    if a.PostTask? {
      var t := Tag(s.busy[a.w].c, |s.conns[s.busy[a.w].c].files|);
      assert t in s.tasks ==> TaskOk(s, t);
      PostIsQueued(s.tasks, t);
    } else if a.RunTask? {
      RunIsSent(s.tasks, a.t);
    } else if a.DropTask? {
      DropIsGone(s.tasks, a.t);
    }
  }

  lemma AnnouncementsChange(s: State, a: Action)
    requires Mail(s) && |s.inbox| == |s.maps| && Enabled(s, a) && Drains(a)
    ensures |Unannounced(Apply(s, a))| == |Unannounced(s)| - if a.Announce? then 1 else 0
  {
    var e := Apply(s, a);
    if a.Announce? {
      assert Unannounced(e) == Unannounced(s) - {a.fd};
    } else {
      if a.HandleNew? {
        assert MsgOk(s, a.w, s.inbox[a.w][0]);
      }
      assert Unannounced(e) == Unannounced(s);
    }
  }

  /** What a step adds to the work of its worker. */
  function WorkOf(a: Action): int
    requires Drains(a)
  {
    if a.Announce? || a.RunTask? then 1 else if a.PostTask? then -5 else if a.DropTask? then 0 else -1
  }

  lemma WorkersChange(s: State, a: Action)
    requires |s.inbox| == |s.busy| && Enabled(s, a) && Drains(a)
    ensures var e := Apply(s, a);
            |e.inbox| == |e.busy| && WorkerRank(e.inbox, e.busy) == WorkerRank(s.inbox, s.busy) + WorkOf(a)
  {
    var e := Apply(s, a);
    if !a.DropTask? {
      var w := WorkerOf(a);
      WorkerRankChanges(s.inbox, s.busy, w, e.inbox[w], e.busy[w]);
      assert e.inbox == s.inbox[w := e.inbox[w]] && e.busy == s.busy[w := e.busy[w]];
    }
  }

  lemma DrainDescends(s: State, a: Action)
    requires Routes(s) && Enabled(s, a) && Drains(a)
    ensures |Apply(s, a).inbox| == |Apply(s, a).busy| && Rank(Apply(s, a)) < Rank(s)
  {
    hide InStage, Unannounced, WorkerRank, Apply, Enabled;
    TasksChange(s, a);
    AnnouncementsChange(s, a);
    WorkersChange(s, a);
  }

  /** From every reachable state, however the threads are scheduled, the server
      comes to rest after at most Rank(s) steps of its own. */
  lemma {:induction false} DrainIsBounded(s: State, acts: seq<Action>)
    requires Inv(s) && Runnable(s, acts) && forall a <- acts :: Drains(a)
    ensures |acts| <= Rank(s)
    decreases |acts|
  {
    if acts != [] {
      assert acts[0] in acts && acts == [acts[0]] + acts[1..];
      DrainDescends(s, acts[0]);
      StepKeepsInv(s, acts[0]);
      DrainIsBounded(Apply(s, acts[0]), acts[1..]);
    }
  }
}
