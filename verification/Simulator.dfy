/** The load generator's stop condition. Each of the clients counts the echoes it
    has received; a counter shared by all worker threads counts them together.
    On an echo a client first increments the shared counter, and if that reaches
    clients x messages it declares everything received and ends the process;
    otherwise it then increments its own count and reads on until that is full.
  */
module Simulator {

  /** `between`: shared counter incremented, own count not (yet). */
  datatype Client = Client(self: nat, between: bool) {

    /** Echoes this client has received. */
    function Received(): nat {
      self + if between then 1 else 0
    }
  }

  datatype State = State(msgNum: nat, clients: seq<Client>, echoCount: nat, declared: bool)

  datatype Action = CountShared(c: nat) | CountOwn(c: nat)

  predicate Enabled(s: State, a: Action) {
    && !s.declared && a.c < |s.clients|
    && match a
       case CountShared(c) => !s.clients[c].between && s.clients[c].self != s.msgNum
       case CountOwn(c) => s.clients[c].between
  }

  function Apply(s: State, a: Action): State
    requires Enabled(s, a)
  {
    match a
    case CountShared(c) =>
      s.(echoCount := s.echoCount + 1, clients := s.clients[c := s.clients[c].(between := true)],
         declared := s.echoCount + 1 >= s.msgNum * |s.clients|)
    case CountOwn(c) => s.(clients := s.clients[c := Client(s.clients[c].self + 1, false)])
  }

  ghost predicate Init(s: State) {
    s.echoCount == 0 && !s.declared && forall i :: 0 <= i < |s.clients| ==> s.clients[i] == Client(0, false)
  }

  ghost predicate Runnable(s: State, acts: seq<Action>)
    decreases |acts|
  {
    acts == [] || (Enabled(s, acts[0]) && Runnable(Apply(s, acts[0]), acts[1..]))
  }

  ghost function Exec(s: State, acts: seq<Action>): State
    requires Runnable(s, acts)
    decreases |acts|
  {
    if acts == [] then s else Exec(Apply(s, acts[0]), acts[1..])
  }

  ghost function Total(clients: seq<Client>): nat {
    if clients == [] then 0 else clients[0].Received() + Total(clients[1..])
  }

  lemma {:induction false} TotalChanges(clients: seq<Client>, c: nat, x: Client)
    requires c < |clients|
    ensures Total(clients[c := x]) == Total(clients) - clients[c].Received() + x.Received()
  {
    if c == 0 {
      assert clients[c := x][1..] == clients[1..];
    } else {
      assert clients[c := x][1..] == clients[1..][c - 1 := x];
      TotalChanges(clients[1..], c - 1, x);
    }
  }

  ghost predicate AllReceived(clients: seq<Client>, m: nat) {
    forall i :: 0 <= i < |clients| ==> clients[i].Received() == m
  }

  ghost predicate NoneAbove(clients: seq<Client>, m: nat) {
    forall i :: 0 <= i < |clients| ==> clients[i].Received() <= m
  }

  /** A bound on each client bounds the total, which is met exactly if all meet it. */
  lemma {:induction false} TotalIsBounded(clients: seq<Client>, m: nat)
    requires NoneAbove(clients, m)
    ensures Total(clients) <= m * |clients|
    ensures Total(clients) == m * |clients| <==> AllReceived(clients, m)
  {
    if clients != [] {
      var rest := clients[1..];
      TotalIsBounded(rest, m);
      assert m * |clients| == m + m * |rest|;
      assert AllReceived(clients, m) <==> clients[0].Received() == m && AllReceived(rest, m) by {
        assert forall i :: 0 <= i < |rest| ==> rest[i] == clients[i + 1];
        assert forall i :: 1 <= i < |clients| ==> clients[i] == rest[i - 1];
      }
    }
  }

  ghost predicate Inv(s: State) {
    && s.echoCount == Total(s.clients)
    && NoneAbove(s.clients, s.msgNum)
    && (s.msgNum * |s.clients| > 0 ==> (s.declared <==> s.echoCount >= s.msgNum * |s.clients|))
    && (s.declared ==> s.echoCount >= s.msgNum * |s.clients|)
  }

  lemma StepKeepsInv(s: State, a: Action)
    requires Inv(s) && Enabled(s, a)
    ensures Inv(Apply(s, a)) && Apply(s, a).msgNum == s.msgNum && |Apply(s, a).clients| == |s.clients|
  {
    var e := Apply(s, a);
    TotalChanges(s.clients, a.c, e.clients[a.c]);
  }

  lemma {:induction false} RunKeepsInv(s: State, acts: seq<Action>)
    requires Inv(s) && Runnable(s, acts)
    ensures Inv(Exec(s, acts)) && Exec(s, acts).msgNum == s.msgNum && |Exec(s, acts).clients| == |s.clients|
    decreases |acts|
  {
    if acts != [] {
      StepKeepsInv(s, acts[0]);
      RunKeepsInv(Apply(s, acts[0]), acts[1..]);
    }
  }

  lemma {:induction false} TotalOfFresh(clients: seq<Client>)
    requires forall i :: 0 <= i < |clients| ==> clients[i] == Client(0, false)
    ensures Total(clients) == 0
  {
    if clients != [] {
      TotalOfFresh(clients[1..]);
    }
  }

  /** In every interleaving: the shared count is the sum of the clients' counts
      plus those between the two increments, never exceeds clients x messages,
      and "all received" is declared exactly when every client has received all
      of its echoes (if there are any to receive). */
  lemma DeclaredMeansAll(s: State, acts: seq<Action>)
    requires Init(s) && Runnable(s, acts)
    ensures var e := Exec(s, acts);
            && e.echoCount == Total(e.clients) <= s.msgNum * |s.clients|
            && (e.declared ==> AllReceived(e.clients, s.msgNum))
            && (s.msgNum * |s.clients| > 0 && AllReceived(e.clients, s.msgNum) ==> e.declared)
  {
    TotalOfFresh(s.clients);
    RunKeepsInv(s, acts);
    var e := Exec(s, acts);
    TotalIsBounded(e.clients, e.msgNum);
  }

  // ---- the end is declared -------------------------------------------------

  /** Increments one client has still to make... */
  function Todo(c: Client, m: nat): int {
    2 * (m - c.self) - if c.between then 1 else 0
  }

  /** ... and all of them together. */
  ghost function Left(clients: seq<Client>, m: nat): int {
    if clients == [] then 0 else Todo(clients[0], m) + Left(clients[1..], m)
  }

  lemma {:induction false} LeftChanges(clients: seq<Client>, m: nat, c: nat, x: Client)
    requires c < |clients|
    ensures Left(clients[c := x], m) == Left(clients, m) - Todo(clients[c], m) + Todo(x, m)
  {
    if c == 0 {
      assert clients[c := x][1..] == clients[1..];
    } else {
      assert clients[c := x][1..] == clients[1..][c - 1 := x];
      LeftChanges(clients[1..], m, c - 1, x);
    }
  }

  lemma {:induction false} LeftIsNat(clients: seq<Client>, m: nat)
    requires NoneAbove(clients, m)
    ensures 0 <= Left(clients, m) <= 2 * m * |clients|
  {
    if clients != [] {
      assert clients[0].Received() <= m;
      assert NoneAbove(clients[1..], m);
      LeftIsNat(clients[1..], m);
      assert 2 * m * |clients| == 2 * m + 2 * m * |clients[1..]|;
    }
  }

  /** Until the end is declared, clients do not wait for each other: each goes on
      until it has all of its echoes. */
  lemma EachMayCount(s: State, c: nat)
    requires Inv(s) && !s.declared && c < |s.clients|
    ensures s.clients[c].between ==> Enabled(s, CountOwn(c))
    ensures !s.clients[c].between && s.clients[c].self < s.msgNum ==> Enabled(s, CountShared(c))
  {
  }

  /** Every step is one increment, of the shared counter or of the client's own. */
  lemma StepCounts(s: State, a: Action)
    requires Enabled(s, a)
    ensures var e := Apply(s, a);
            && |e.clients| == |s.clients| && Left(e.clients, s.msgNum) == Left(s.clients, s.msgNum) - 1
            && forall i | 0 <= i < |s.clients| && i != a.c :: e.clients[i] == s.clients[i]
  {
    LeftChanges(s.clients, s.msgNum, a.c, Apply(s, a).clients[a.c]);
  }

  /** As long as echoes come, every run is bounded, and one that can go no further
      has declared that everything was received. */
  lemma {:induction false} EndIsDeclared(s: State, acts: seq<Action>)
    requires Inv(s) && s.msgNum * |s.clients| > 0 && Runnable(s, acts) && forall a :: !Enabled(Exec(s, acts), a)
    ensures |acts| <= Left(s.clients, s.msgNum) <= 2 * s.msgNum * |s.clients|
    ensures Exec(s, acts).declared && AllReceived(Exec(s, acts).clients, s.msgNum)
    decreases |acts|
  {
    LeftIsNat(s.clients, s.msgNum);
    TotalIsBounded(s.clients, s.msgNum);
    var e := Exec(s, acts);
    if acts == [] {
      assert e == s;
      if !s.declared {
        forall c | 0 <= c < |s.clients| ensures s.clients[c].Received() == s.msgNum {
          assert !Enabled(s, CountShared(c)) && !Enabled(s, CountOwn(c));
        }
      }
    } else {
      StepKeepsInv(s, acts[0]);
      StepCounts(s, acts[0]);
      assert e == Exec(Apply(s, acts[0]), acts[1..]);
      EndIsDeclared(Apply(s, acts[0]), acts[1..]);
    }
  }
}
