/** The server as its clients and the kernel see it: which fds are open, which
    connections are registered and what has been asked on them, read off the
    actions of a run alone; what may happen next; and that nobody who was accepted
    is forgotten.
  */
module Clients {
  import opened Maxima
  import opened Service
  import opened Progress

  /** Accepted and not closed since. */
  ghost function OpenFds(acts: seq<Action>): set<nat> {
    if acts == [] then {} else
      var n := |acts| - 1;
      match acts[n]
      case Accept(fd) => OpenFds(acts[..n]) + {fd}
      case Reap(c) => OpenFds(acts[..n]) - {c.fd}
      case _ => OpenFds(acts[..n])
  }

  /** The bodies received on a connection, in order. */
  ghost function Bodies(acts: seq<Action>, c: Cid): seq<seq<File>> {
    if acts == [] then [] else
      var n := |acts| - 1;
      Bodies(acts[..n], c) + if acts[n].BeginRequest? && acts[n].c == c then [acts[n].body] else []
  }

  /** An announced fd has its message in the worker's mailbox. */
  ghost predicate Awaited(s: State) {
    forall fd <- s.holder :: s.holder[fd].Announced? ==>
      s.holder[fd].worker < |s.inbox| && NewConnect(fd) in s.inbox[s.holder[fd].worker]
  }

  /** The state agrees with what has happened. */
  ghost predicate Traced(s: State, acts: seq<Action>) {
    && s.holder.Keys == OpenFds(acts)
    && (forall c :: Bodies(acts, c) == if c in s.conns then s.conns[c].requests else [])
    && (forall c <- s.conns :: Destroy(c) !in acts ==> InMap(s, c))
  }

  lemma StepKeepsAwaited(s: State, a: Action)
    requires Routes(s) && Awaited(s) && Enabled(s, a)
    ensures Awaited(Apply(s, a))
  {
    var e := Apply(s, a);
    forall fd <- e.holder | e.holder[fd].Announced?
      ensures e.holder[fd].worker < |e.inbox| && NewConnect(fd) in e.inbox[e.holder[fd].worker]
    {
      var w := e.holder[fd].worker;
      if a.Announce? && a.fd == fd {
        assert e.inbox[w][|e.inbox[w]| - 1] == NewConnect(fd);
      } else {
        assert s.holder[fd] == e.holder[fd];
        var i :| 0 <= i < |s.inbox[w]| && s.inbox[w][i] == NewConnect(fd);
        if (a.HandleNew? || a.HandleDone?) && a.w == w {
          assert e.inbox[w][i - 1] == s.inbox[w][i];
        } else {
          assert e.inbox[w][i] == s.inbox[w][i];
        }
      }
    }
  }

  lemma StepKeepsRegistered(s: State, a: Action, c: Cid)
    requires Routes(s) && Enabled(s, a)
    requires c in s.conns ==> InMap(s, c) && a != Destroy(c)
    ensures c in Apply(s, a).conns ==> InMap(Apply(s, a), c)
  {
    if c in s.conns {
      assert Entry(s, c.worker, c.fd, s.maps[c.worker][c.fd]);
    } else if a.HandleNew? {
      HandleNewKeeps(s, a.w);
    }
  }

  lemma StepKeepsBodies(s: State, before: seq<Action>, a: Action)
    requires Shape(s) && Enabled(s, a)
    requires forall c :: Bodies(before, c) == if c in s.conns then s.conns[c].requests else []
    ensures var e := Apply(s, a); forall c :: Bodies(before + [a], c) == if c in e.conns then e.conns[c].requests else []
  {
    assert (before + [a])[..|before|] == before;
    var e := Apply(s, a);
    forall c ensures Bodies(before + [a], c) == if c in e.conns then e.conns[c].requests else [] {
      assert Bodies(before, c) + [] == Bodies(before, c);
      assert c in s.conns ==> c in e.conns;
    }
  }

  lemma StepIsTraced(s: State, before: seq<Action>, a: Action)
    requires Routes(s) && Traced(s, before) && Enabled(s, a)
    ensures Traced(Apply(s, a), before + [a])
  {
    hide Routes;
    var e := Apply(s, a);
    RoutesHaveShape(s);
    StepKeepsBodies(s, before, a);
    assert e.holder.Keys == OpenFds(before + [a]) by {
      assert (before + [a])[..|before|] == before;
      OpenFdsChange(s, a);
    }
    forall c <- e.conns | Destroy(c) !in before + [a] ensures InMap(e, c) {
      assert a != Destroy(c) && Destroy(c) !in before by {
        assert forall b :: b in before || b == a ==> b in before + [a];
      }
      StepKeepsRegistered(s, a, c);
    }
  }

  lemma RoutesHaveShape(s: State)
    requires Routes(s)
    ensures Shape(s)
  {
  }

  lemma OpenFdsChange(s: State, a: Action)
    requires Routes(s) && Enabled(s, a)
    ensures Apply(s, a).holder.Keys ==
            match a case Accept(fd) => s.holder.Keys + {fd} case Reap(c) => s.holder.Keys - {c.fd} case _ => s.holder.Keys
  {
    if a.HandleNew? {
      assert MsgOk(s, a.w, s.inbox[a.w][0]);
    }
  }

  lemma {:induction false} RunIsTraced(s: State, before: seq<Action>, acts: seq<Action>)
    requires Inv(s) && Awaited(s) && Traced(s, before) && Runnable(s, acts)
    ensures Awaited(Exec(s, acts)) && Traced(Exec(s, acts), before + acts)
    decreases |acts|
  {
    hide Awaited, Traced, Routes, Books, NothingLost, Enabled, Apply;
    if acts == [] {
      assert before + acts == before;
    } else {
      StepKeepsInv(s, acts[0]);
      StepKeepsAwaited(s, acts[0]);
      StepIsTraced(s, before, acts[0]);
      RunIsTraced(Apply(s, acts[0]), before + [acts[0]], acts[1..]);
      assert before + [acts[0]] + acts[1..] == before + acts;
    }
  }

  lemma InitIsTraced(s: State)
    requires Init(s)
    ensures Awaited(s) && Traced(s, [])
  {
  }

  /** Over every run: the open fds are those accepted and not closed since; what a
      connection takes its requests to be is what its client sent; and a
      connection stays in its worker's map until it is removed itself. */
  lemma StateIsHistory(s: State, acts: seq<Action>)
    requires Init(s) && Runnable(s, acts)
    ensures var e := Exec(s, acts);
            && e.holder.Keys == OpenFds(acts)
            && forall c <- e.conns :: e.conns[c].requests == Bodies(acts, c) && (Destroy(c) !in acts ==> InMap(e, c))
  {
    InitHasInv(s);
    InitIsTraced(s);
    RunIsTraced(s, [], acts);
    assert [] + acts == acts;
  }

  /** In every reachable state the kernel may hand out any fd that is not open; one
      that has been accepted may be announced to any worker; a
      registered connection whose worker is free may receive any body, or go;
      and one that nothing holds any more may be destroyed. */
  lemma ClientsMayAct(s: State, acts: seq<Action>, fd: nat, c: Cid, body: seq<File>)
    requires Init(s) && Runnable(s, acts) && body != []
    ensures var e := Exec(s, acts);
            && (fd !in OpenFds(acts) ==> Enabled(e, Accept(fd)))
            && (fd in e.holder && e.holder[fd] == Accepting ==> forall w: nat | w < |e.inbox| :: Enabled(e, Announce(fd, w)))
            && (InMap(e, c) && c.worker < |e.busy| && e.busy[c.worker].Free? ==>
                  Enabled(e, BeginRequest(c, body)) && Enabled(e, Destroy(c)))
            && (c in e.alive && c.worker < |e.busy| && c.worker < |e.maps| && !Held(e, c) ==> Enabled(e, Reap(c)))
  {
    StateIsHistory(s, acts);
    InitHasInv(s);
    RunKeepsInv(s, acts);
    MayAct(Exec(s, acts), fd, c, body);
  }

  lemma MayAct(e: State, fd: nat, c: Cid, body: seq<File>)
    requires Shape(e) && Maps(e) && body != []
    ensures fd !in e.holder ==> Enabled(e, Accept(fd))
    ensures fd in e.holder && e.holder[fd] == Accepting ==> forall w: nat | w < |e.inbox| :: Enabled(e, Announce(fd, w))
    ensures InMap(e, c) && e.busy[c.worker].Free? ==> Enabled(e, BeginRequest(c, body)) && Enabled(e, Destroy(c))
    ensures c in e.alive && c.worker < |e.maps| && !Held(e, c) ==> Enabled(e, Reap(c))
  {
    if InMap(e, c) {
      assert Entry(e, c.worker, c.fd, e.maps[c.worker][c.fd]);
    }
  }

  /** Whenever a server with workers is at rest, every fd that was accepted and not
      closed since belongs to a live connection of its own, which is in its
      worker's map unless it was removed. */
  lemma NobodyIsForgotten(s: State, acts: seq<Action>, fd: nat)
    requires Init(s) && Runnable(s, acts) && AtRest(Exec(s, acts)) && s.inbox != [] && fd in OpenFds(acts)
    ensures var e := Exec(s, acts);
            && fd in e.holder && e.holder[fd].Owned?
            && var c := e.holder[fd].c;
               c.fd == fd && c in e.alive && c in e.conns && (Destroy(c) !in acts ==> InMap(e, c))
  {
    StateIsHistory(s, acts);
    InitHasInv(s);
    RunKeepsInv(s, acts);
    RunKeepsWorkers(s, acts);
    InitIsTraced(s);
    RunIsTraced(s, [], acts);
    var e := Exec(s, acts);
    RestIsEmpty(e);
    assert !Enabled(e, Announce(fd, 0)) by {
      assert Drains(Announce(fd, 0));
    }
  }

  lemma {:induction false} RunKeepsWorkers(s: State, acts: seq<Action>)
    requires Runnable(s, acts)
    ensures |Exec(s, acts).inbox| == |s.inbox|
    decreases |acts|
  {
    if acts != [] {
      RunKeepsWorkers(Apply(s, acts[0]), acts[1..]);
    }
  }
}
