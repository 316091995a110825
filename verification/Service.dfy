/** Connections, file descriptors and messages across the workers of a server
    that runs map-reduce requests on a thread pool.

    A worker owns a map from fd to connection and a FIFO mailbox. A connection
    is kept alive by its map entry, by the pool tasks it posted and by the
    callback it is running; when the last of these goes, the connection and its
    stream are destroyed and the fd is closed, after which the kernel may hand
    the same number to the next client. A finished task only knows the fd: its
    result is routed by looking that number up in the worker's map.

    Steps of different threads interleave freely; a worker runs one callback at
    a time. Connections and tasks carry an identity that the program does not
    have, so that "the very connection that asked for this result" can be said.
  */
module Service {
  import opened Maxima
  import Text

  datatype Cid = Cid(id: nat, fd: nat, worker: nat)

  datatype Tag = Tag(conn: Cid, serial: nat)

  datatype Msg =
    | NewConnect(fd: nat)
    | MapDone(handle: nat, maxNum: int, tag: Tag)

  /** Who is responsible for an open fd. */
  datatype Holder = Accepting | Announced(worker: nat) | Owned(c: Cid)

  /** An answer, with how many bodies had been accepted and which files had been
      posted when it was sent. */
  datatype Reply = Reply(value: int, asked: nat, files: seq<File>)

  /** MapReduceConnection: its three fields, and the history of its client. */
  datatype Conn = Conn(
    firstCome: bool,
    taskCount: int,
    curMax: int,
    requests: seq<seq<File>>,    // bodies accepted
    files: seq<File>,            // files posted; files[n] is mapped by the one with serial n
    results: map<nat, int>,      // results handled, by serial
    replies: seq<Reply>)         // answers sent

  datatype Callback = Free | Posting(c: Cid, rest: seq<File>, uncounted: bool)

  datatype Stage = Queued | Sent

  datatype State = State(
    inbox: seq<seq<Msg>>,           // one mailbox per worker
    maps: seq<map<nat, Cid>>,       // one connection map per worker
    busy: seq<Callback>,            // what each worker is doing
    holder: map<nat, Holder>,       // the open fds
    conns: map<Cid, Conn>,          // every connection ever made
    alive: set<Cid>,                // those not yet destroyed
    tasks: map<Tag, Stage>,         // tasks that still hold their connection
    nextId: nat)

  datatype Action =
    | Accept(fd: nat)
    | Announce(fd: nat, w: nat)
    | HandleNew(w: nat)
    | HandleDone(w: nat)
    | BeginRequest(c: Cid, body: seq<File>)
    | PostTask(w: nat)
    | CountTask(w: nat)
    | EndRequest(w: nat)
    | RunTask(t: Tag, v: int)
    | DropTask(t: Tag)
    | Destroy(c: Cid)
    | Reap(c: Cid)

  const FRESH: Conn := Conn(true, 0, 0, [], [], map[], [])

  ghost predicate Held(s: State, c: Cid)
    requires c.worker < |s.maps| && c.worker < |s.busy|
  {
    || (c.fd in s.maps[c.worker] && s.maps[c.worker][c.fd] == c)
    || (s.busy[c.worker].Posting? && s.busy[c.worker].c == c)
    || (exists t <- s.tasks :: t.conn == c)
  }

  predicate Worker(s: State, w: nat) {
    w < |s.inbox| && w < |s.maps| && w < |s.busy|
  }

  /** unordered_map::insert leaves an existing entry alone. */
  function Insert(m: map<nat, Cid>, c: Cid): map<nat, Cid> {
    if c.fd in m then m else m[c.fd := c]
  }

  /** onMessage: count down, fold the result in, answer when the count is 0. */
  function Receive(k: Conn, serial: nat, v: int): Conn {
    var count := k.taskCount - 1;
    var m := if k.firstCome then v else Reduce(k.curMax, v);
    k.(firstCome := false, taskCount := count, curMax := m, results := k.results[serial := v],
       replies := if count == 0 then k.replies + [Reply(m, |k.requests|, k.files)] else k.replies)
  }

  /** The worker can run a callback of the connection. */
  ghost predicate Ready(s: State, c: Cid) {
    c in s.alive && c in s.conns && Worker(s, c.worker) && Held(s, c) && s.busy[c.worker].Free?
  }

  ghost predicate Enabled(s: State, a: Action) {
    match a
    case Accept(fd) => fd !in s.holder
    case Announce(fd, w) => fd in s.holder && s.holder[fd] == Accepting && Worker(s, w)
    case HandleNew(w) => Worker(s, w) && s.busy[w].Free? && s.inbox[w] != [] && s.inbox[w][0].NewConnect?
    case HandleDone(w) => Worker(s, w) && s.busy[w].Free? && s.inbox[w] != [] && s.inbox[w][0].MapDone?
                          && (var h := s.inbox[w][0].handle; h in s.maps[w] ==> s.maps[w][h] in s.conns)
    case BeginRequest(c, body) => Ready(s, c) && body != []
    case PostTask(w) => Worker(s, w) && s.busy[w].Posting? && s.busy[w].rest != [] && !s.busy[w].uncounted
                        && s.busy[w].c in s.conns
    case CountTask(w) => Worker(s, w) && s.busy[w].Posting? && s.busy[w].uncounted && s.busy[w].c in s.conns
    case EndRequest(w) => Worker(s, w) && s.busy[w].Posting? && s.busy[w].rest == [] && !s.busy[w].uncounted
    case RunTask(t, v) => t in s.tasks && s.tasks[t].Queued? && Worker(s, t.conn.worker) && t.conn in s.conns
                          && t.serial < |s.conns[t.conn].files|
                          && (var file := s.conns[t.conn].files[t.serial]; file != [] ==> IsMax(v, file))
    case DropTask(t) => t in s.tasks && s.tasks[t].Sent?
    case Destroy(c) => c in s.alive && Worker(s, c.worker) && Held(s, c) && s.busy[c.worker].Free?
    case Reap(c) => c in s.alive && Worker(s, c.worker) && !Held(s, c)
  }

  ghost function Apply(s: State, a: Action): State
    requires Enabled(s, a)
  {
    match a
    case Accept(fd) => s.(holder := s.holder[fd := Accepting])
    case Announce(fd, w) =>
      s.(holder := s.holder[fd := Announced(w)], inbox := s.inbox[w := s.inbox[w] + [NewConnect(fd)]])
    case HandleNew(w) =>
      var fd := s.inbox[w][0].fd;
      var c := Cid(s.nextId, fd, w);
      s.(inbox := s.inbox[w := s.inbox[w][1..]], maps := s.maps[w := Insert(s.maps[w], c)],
         holder := s.holder[fd := Owned(c)], conns := s.conns[c := FRESH], alive := s.alive + {c},
         nextId := s.nextId + 1)
    case HandleDone(w) =>
      var m := s.inbox[w][0];
      var s1 := s.(inbox := s.inbox[w := s.inbox[w][1..]]);
      if m.handle !in s.maps[w] then s1 else
        var c := s.maps[w][m.handle];
        s1.(conns := s.conns[c := Receive(s.conns[c], m.tag.serial, m.maxNum)])
    case BeginRequest(c, body) =>
      var k := s.conns[c];
      s.(busy := s.busy[c.worker := Posting(c, body, false)], conns := s.conns[c := k.(requests := k.requests + [body])])
    case PostTask(w) =>
      var Posting(c, rest, _) := s.busy[w];
      var k := s.conns[c];
      s.(busy := s.busy[w := Posting(c, rest[1..], true)], tasks := s.tasks[Tag(c, |k.files|) := Queued],
         conns := s.conns[c := k.(files := k.files + [rest[0]])])
    case CountTask(w) =>
      var Posting(c, rest, _) := s.busy[w];
      var k := s.conns[c];
      s.(busy := s.busy[w := Posting(c, rest, false)], conns := s.conns[c := k.(taskCount := k.taskCount + 1)])
    case EndRequest(w) => s.(busy := s.busy[w := Free])
    case RunTask(t, v) =>
      var w := t.conn.worker;
      s.(tasks := s.tasks[t := Sent], inbox := s.inbox[w := s.inbox[w] + [MapDone(t.conn.fd, v, t)]])
    case DropTask(t) => s.(tasks := s.tasks - {t})
    case Destroy(c) => s.(maps := s.maps[c.worker := s.maps[c.worker] - {c.fd}])
    case Reap(c) => s.(alive := s.alive - {c}, holder := s.holder - {c.fd})
  }

  ghost predicate Init(s: State) {
    && |s.inbox| == |s.maps| == |s.busy|
    && (forall q <- s.inbox :: q == [])
    && (forall m <- s.maps :: m == map[])
    && (forall b <- s.busy :: b == Free)
    && s.holder == map[] && s.conns == map[] && s.alive == {} && s.tasks == map[]
  }

  ghost predicate Runnable(s: State, acts: seq<Action>)
    decreases |acts|
  {
    acts == [] || (Enabled(s, acts[0]) && Runnable(Apply(s, acts[0]), acts[1..]))
  }

  ghost function Exec(s: State, acts: seq<Action>): State
    requires Runnable(s, acts)
    decreases |acts|
  {
    if acts == [] then s else Exec(Apply(s, acts[0]), acts[1..])
  }

  // ---- invariant: who owns an fd -------------------------------------------

  ghost predicate Shape(s: State) {
    && |s.inbox| == |s.maps| == |s.busy|
    && (forall c <- s.conns :: c.id < s.nextId && c.worker < |s.maps|)
    && s.alive <= s.conns.Keys
  }

  ghost predicate Serials(s: State) {
    forall c <- s.conns, n <- s.conns[c].results :: n < |s.conns[c].files|
  }

  /** A live connection is the one owner of its fd. */
  ghost predicate Owners(s: State) {
    && (forall c <- s.alive :: c.fd in s.holder && s.holder[c.fd] == Owned(c))
    && (forall fd <- s.holder :: s.holder[fd].Owned? ==> s.holder[fd].c in s.alive && s.holder[fd].c.fd == fd)
  }

  ghost predicate Entry(s: State, w: nat, fd: nat, c: Cid) {
    c in s.alive && c.fd == fd && c.worker == w
  }

  ghost predicate Maps(s: State) {
    forall w, fd :: 0 <= w < |s.maps| && fd in s.maps[w] ==> Entry(s, w, fd, s.maps[w][fd])
  }

  ghost predicate Callbacks(s: State) {
    forall w :: 0 <= w < |s.busy| && s.busy[w].Posting? ==> s.busy[w].c in s.alive && s.busy[w].c.worker == w
  }

  ghost predicate TaskOk(s: State, t: Tag) {
    && t.conn in s.alive && t.conn in s.conns
    && t.serial < |s.conns[t.conn].files|
    && (t in s.tasks && s.tasks[t].Queued? ==> t.serial !in s.conns[t.conn].results)
  }

  ghost predicate Tasks(s: State) {
    forall t <- s.tasks :: TaskOk(s, t)
  }

  // ---- invariant: mailboxes ------------------------------------------------

  ghost predicate ResultOk(s: State, w: nat, h: nat, v: int, t: Tag) {
    && t.conn in s.conns && t.conn.fd == h && t.conn.worker == w
    && t.serial < |s.conns[t.conn].files| && t.serial !in s.conns[t.conn].results
    && (s.conns[t.conn].files[t.serial] != [] ==> IsMax(v, s.conns[t.conn].files[t.serial]))
    && (t in s.tasks ==> s.tasks[t].Sent?)
    && (w < |s.maps| && h in s.maps[w] ==> s.maps[w][h] == t.conn)
  }

  ghost predicate MsgOk(s: State, w: nat, m: Msg) {
    match m
    case NewConnect(fd) => fd in s.holder && s.holder[fd] == Announced(w)
    case MapDone(h, v, t) => ResultOk(s, w, h, v, t)
  }

  ghost predicate Mail(s: State) {
    forall w, i :: 0 <= w < |s.inbox| && 0 <= i < |s.inbox[w]| ==> MsgOk(s, w, s.inbox[w][i])
  }

  /** `a` may stand before `b` in a mailbox: no fd is announced twice, no result
      comes twice, and no result for an fd stands behind the announcement of a
      new connection on that fd. */
  predicate MayPrecede(a: Msg, b: Msg) {
    match (a, b)
    case (NewConnect(x), NewConnect(y)) => x != y
    case (NewConnect(x), MapDone(h, _, _)) => x != h
    case (MapDone(_, _, t), MapDone(_, _, u)) => t != u
    case (MapDone(_, _, _), NewConnect(_)) => true
  }

  ghost predicate Tidy(q: seq<Msg>) {
    forall i, j :: 0 <= i < j < |q| ==> MayPrecede(q[i], q[j])
  }

  ghost predicate Order(s: State) {
    forall w :: 0 <= w < |s.inbox| ==> Tidy(s.inbox[w])
  }

  ghost predicate Routes(s: State) {
    Shape(s) && Serials(s) && Owners(s) && Maps(s) && Callbacks(s) && Tasks(s) && Mail(s) && Order(s)
  }

  lemma AcceptKeeps(s: State, fd: nat)
    requires Routes(s) && Enabled(s, Accept(fd))
    ensures Routes(Apply(s, Accept(fd)))
  {
  }

  /** A new fd is announced behind every result still in the mailbox. */
  lemma AnnounceKeeps(s: State, fd: nat, w: nat)
    requires Routes(s) && Enabled(s, Announce(fd, w))
    ensures Routes(Apply(s, Announce(fd, w)))
  {
  }

  lemma HandleNewMail(s: State, w: nat)
    requires Routes(s) && Enabled(s, HandleNew(w))
    ensures Mail(Apply(s, HandleNew(w)))
  {
  }

  /** The new connection finds its key free, and no result for an earlier
      connection on the same fd is still waiting. */
  lemma HandleNewKeeps(s: State, w: nat)
    requires Routes(s) && Enabled(s, HandleNew(w))
    ensures Routes(Apply(s, HandleNew(w)))
    ensures s.inbox[w][0].fd !in s.maps[w]
  {
    hide IsMax, Held;
    var e := Apply(s, HandleNew(w));
    HandleNewMail(s, w);
    assert MsgOk(s, w, s.inbox[w][0]);
    assert Tasks(e) by {
      forall t <- e.tasks ensures TaskOk(e, t) {
        assert TaskOk(s, t);
      }
    }
  }

  lemma HandleDoneMail(s: State, w: nat)
    requires Routes(s) && Enabled(s, HandleDone(w))
    ensures Mail(Apply(s, HandleDone(w)))
  {
  }

  /** A result that finds a connection has found the one that asked for it. */
  lemma HandleDoneKeeps(s: State, w: nat)
    requires Routes(s) && Enabled(s, HandleDone(w))
    ensures Routes(Apply(s, HandleDone(w)))
    ensures var m := s.inbox[w][0]; m.handle in s.maps[w] ==> s.maps[w][m.handle] == m.tag.conn
  {
    var e := Apply(s, HandleDone(w));
    HandleDoneMail(s, w);
    assert MsgOk(s, w, s.inbox[w][0]);
    assert Tasks(e) by {
      forall t <- e.tasks ensures TaskOk(e, t) {
        assert TaskOk(s, t);
      }
    }
  }

  lemma PostTaskKeeps(s: State, w: nat)
    requires Routes(s) && Enabled(s, PostTask(w))
    ensures Routes(Apply(s, PostTask(w)))
  {
  }

  lemma RequestKeeps(s: State, a: Action)
    requires Routes(s) && Enabled(s, a) && (a.BeginRequest? || a.CountTask? || a.EndRequest?)
    ensures Routes(Apply(s, a))
  {
    hide IsMax, Held;
  }

  /** A running map task still holds its connection, so the fd it names is its own. */
  lemma RunTaskKeeps(s: State, t: Tag, v: int)
    requires Routes(s) && Enabled(s, RunTask(t, v))
    ensures Routes(Apply(s, RunTask(t, v)))
  {
    hide Held;
  }

  lemma DropTaskKeeps(s: State, t: Tag)
    requires Routes(s) && Enabled(s, DropTask(t))
    ensures Routes(Apply(s, DropTask(t)))
  {
  }

  lemma ReleaseKeeps(s: State, a: Action)
    requires Routes(s) && Enabled(s, a) && (a.Destroy? || a.Reap?)
    ensures Routes(Apply(s, a))
  {
    var e := Apply(s, a);
    assert Mail(e) by {
      forall v, i | 0 <= v < |e.inbox| && 0 <= i < |e.inbox[v]| ensures MsgOk(e, v, e.inbox[v][i]) {
        assert MsgOk(s, v, s.inbox[v][i]);
      }
    }
    assert Tasks(e) by {
      forall t <- e.tasks ensures TaskOk(e, t) {
        assert TaskOk(s, t);
      }
    }
  }

  lemma StepKeepsRoutes(s: State, a: Action)
    requires Routes(s) && Enabled(s, a)
    ensures Routes(Apply(s, a))
  {
    match a
    case Accept(fd) => AcceptKeeps(s, fd);
    case Announce(fd, w) => AnnounceKeeps(s, fd, w);
    case HandleNew(w) => HandleNewKeeps(s, w);
    case HandleDone(w) => HandleDoneKeeps(s, w);
    case RunTask(t, v) => RunTaskKeeps(s, t, v);
    case BeginRequest(_, _) => RequestKeeps(s, a);
    case PostTask(w) => PostTaskKeeps(s, w);
    case CountTask(_) => RequestKeeps(s, a);
    case EndRequest(_) => RequestKeeps(s, a);
    case DropTask(t) => DropTaskKeeps(s, t);
    case Destroy(_) => ReleaseKeeps(s, a);
    case Reap(_) => ReleaseKeeps(s, a);
  }

  // ---- invariant: the books of a connection --------------------------------

  /** All files of all accepted bodies, in order. */
  ghost function AllFiles(requests: seq<seq<File>>): seq<File> {
    if requests == [] then [] else AllFiles(requests[..|requests| - 1]) + requests[|requests| - 1]
  }

  /** The callback the connection is inside of, if any. */
  ghost function CallOf(s: State, c: Cid): Callback {
    if c.worker < |s.busy| && s.busy[c.worker].Posting? && s.busy[c.worker].c == c then s.busy[c.worker] else Free
  }

  /** taskCount_ is the number of results not yet handled, give or take a task
      posted but not yet counted; nothing of a body is posted twice or skipped. */
  ghost predicate Counted(k: Conn, cb: Callback) {
    && k.taskCount + (if cb.Posting? && cb.uncounted then 1 else 0) == |k.files| - |k.results|
    && k.files + (if cb.Posting? then cb.rest else []) == AllFiles(k.requests)
  }

  /** curMaxNum_ is the largest result handled so far. */
  ghost predicate Folded(k: Conn) {
    && (k.firstCome <==> k.results == map[])
    && (!k.firstCome ==> exists n :: n in k.results && k.results[n] == k.curMax)
    && (!k.firstCome ==> forall n <- k.results :: k.results[n] <= k.curMax)
    && (forall n <- k.results :: n < |k.files| && (k.files[n] != [] ==> IsMax(k.results[n], k.files[n])))
  }

  /** A reply is right for all files of the bodies accepted when it was sent. */
  ghost predicate Right(requests: seq<seq<File>>, r: Reply) {
    && 1 <= r.asked <= |requests|
    && r.files == AllFiles(requests[..r.asked]) && r.files != []
    && ((forall f <- r.files :: f != []) ==> IsMax(r.value, Numbers(r.files)))
  }

  /** Something of the accepted bodies is still to be posted or handled. */
  predicate Pending(k: Conn, cb: Callback) {
    cb.Posting? || |k.results| < |k.files|
  }

  /** There are no more replies than bodies; while something is pending, one less
      at least; and when nothing is, the last reply came after the last body. */
  ghost predicate Replied(k: Conn, cb: Callback) {
    && (if Pending(k, cb) then |k.replies| < |k.requests|
        else |k.replies| <= |k.requests|
             && (k.requests != [] ==> k.replies != [] && k.replies[|k.replies| - 1].asked == |k.requests|))
    && (cb.Posting? ==> k.requests != [] && |k.results| <= |AllFiles(k.requests[..|k.requests| - 1])|)
  }

  ghost predicate Book(k: Conn, cb: Callback) {
    Counted(k, cb) && Folded(k) && (forall r <- k.replies :: Right(k.requests, r)) && Replied(k, cb)
    && (forall body <- k.requests :: body != [])
  }

  ghost predicate Books(s: State) {
    forall c <- s.conns :: Book(s.conns[c], CallOf(s, c))
  }

  ghost predicate InBox(q: seq<Msg>, t: Tag) {
    exists i :: 0 <= i < |q| && q[i].MapDone? && q[i].tag == t
  }

  ghost predicate OnItsWay(s: State, w: nat, t: Tag)
    requires w < |s.inbox|
  {
    (t in s.tasks && s.tasks[t].Queued?) || InBox(s.inbox[w], t)
  }

  /** While a connection is in its worker's map, each missing result is still to
      be computed or is in the worker's mailbox. */
  ghost predicate NothingLost(s: State)
    requires |s.inbox| == |s.maps|
  {
    forall w, fd, n {:trigger OnItsWay(s, w, Tag(s.maps[w][fd], n))} ::
      0 <= w < |s.maps| && fd in s.maps[w] && s.maps[w][fd] in s.conns
      && 0 <= n < |s.conns[s.maps[w][fd]].files| && n !in s.conns[s.maps[w][fd]].results ==>
        OnItsWay(s, w, Tag(s.maps[w][fd], n))
  }

  ghost predicate Inv(s: State) {
    Routes(s) && Books(s) && NothingLost(s)
  }

  ghost function Range(n: nat): (r: set<nat>)
    ensures |r| == n && forall i: nat :: i in r <==> i < n
  {
    if n == 0 then {} else Range(n - 1) + {n - 1}
  }

  /** As many results as files, each for a file, means one for every file. */
  lemma EveryFileAnswered(results: map<nat, int>, n: nat)
    requires forall i <- results :: i < n
    requires |results| == n
    ensures forall i | 0 <= i < n :: i in results
  {
    var missing := Range(n) - results.Keys;
    assert results.Keys <= Range(n);
    assert |missing| == |Range(n)| - |results.Keys|;
    assert forall i | 0 <= i < n && i !in results :: i in missing;
  }

  lemma FoldOne(k: Conn, serial: nat, v: int)
    requires Folded(k) && serial < |k.files| && serial !in k.results
    requires k.files[serial] != [] ==> IsMax(v, k.files[serial])
    ensures Folded(Receive(k, serial, v)) && |Receive(k, serial, v).results| == |k.results| + 1
  {
    var e := Receive(k, serial, v);
    assert e.results[serial] == v && serial in e.results;
    assert e.results.Keys == k.results.Keys + {serial};
    if !k.firstCome && e.curMax == k.curMax {
      var n :| n in k.results && k.results[n] == k.curMax;
      assert n in e.results && e.results[n] == e.curMax;
    }
  }

  lemma ResultsFit(k: Conn)
    requires Folded(k)
    ensures |k.results| <= |k.files|
    ensures |k.results| == |k.files| ==> forall n | 0 <= n < |k.files| :: n in k.results
  {
    assert k.results.Keys <= Range(|k.files|);
    assert |Range(|k.files|) - k.results.Keys| == |k.files| - |k.results|;
    if |k.results| == |k.files| {
      EveryFileAnswered(k.results, |k.files|);
    }
  }

  /** With a result for every file, the fold is the serial maximum. */
  lemma FoldIsSerial(k: Conn)
    requires Folded(k) && |k.results| == |k.files| && k.files != [] && forall f <- k.files :: f != []
    ensures IsMax(k.curMax, Numbers(k.files))
  {
    EveryFileAnswered(k.results, |k.files|);
    assert !k.firstCome;
    forall n | 0 <= n < |k.files| ensures n in k.results && IsMax(k.results[n], k.files[n]) {
      assert k.files[n] in k.files;
    }
    MaxOfMaxima(k.files, k.results, k.curMax);
  }

  lemma AllFilesOf(requests: seq<seq<File>>, body: seq<File>)
    ensures AllFiles(requests + [body]) == AllFiles(requests) + body
  {
    assert (requests + [body])[..|requests|] == requests;
  }

  lemma ReceiveIsRight(k: Conn, serial: nat, v: int)
    requires Counted(k, Free) && k.files != [] && Folded(Receive(k, serial, v))
    requires |Receive(k, serial, v).results| == |k.files|
    ensures Right(k.requests, Reply(Receive(k, serial, v).curMax, |k.requests|, k.files))
  {
    assert k.files + [] == k.files && k.requests[..|k.requests|] == k.requests;
    if forall f <- k.files :: f != [] {
      FoldIsSerial(Receive(k, serial, v));
    }
  }

  lemma ReceiveKeepsBook(k: Conn, serial: nat, v: int)
    requires Book(k, Free) && serial < |k.files| && serial !in k.results
    requires k.files[serial] != [] ==> IsMax(v, k.files[serial])
    ensures Book(Receive(k, serial, v), Free)
  {
    var e := Receive(k, serial, v);
    FoldOne(k, serial, v);
    ResultsFit(k);
    assert Counted(e, Free);
    assert Replied(e, Free);
    if e.taskCount == 0 {
      ReceiveIsRight(k, serial, v);
    }
  }

  lemma RightStays(requests: seq<seq<File>>, body: seq<File>, r: Reply)
    requires Right(requests, r)
    ensures Right(requests + [body], r)
  {
    assert (requests + [body])[..r.asked] == requests[..r.asked];
  }

  lemma BeginKeepsBook(k: Conn, c: Cid, body: seq<File>)
    requires Book(k, Free) && body != []
    ensures Book(k.(requests := k.requests + [body]), Posting(c, body, false))
  {
    var e := k.(requests := k.requests + [body]);
    AllFilesOf(k.requests, body);
    assert Counted(e, Posting(c, body, false)) by {
      assert k.files + [] == k.files;
    }
    assert Replied(e, Posting(c, body, false)) by {
      ResultsFit(k);
      assert e.requests[..|k.requests|] == k.requests && k.files + [] == k.files;
    }
    forall r <- e.replies ensures Right(e.requests, r) {
      RightStays(k.requests, body, r);
    }
  }

  lemma PostKeepsBook(k: Conn, c: Cid, rest: seq<File>)
    requires Book(k, Posting(c, rest, false)) && rest != []
    ensures Book(k.(files := k.files + [rest[0]]), Posting(c, rest[1..], true))
  {
  }

  lemma EndKeepsBook(k: Conn, c: Cid)
    requires Book(k, Posting(c, [], false))
    ensures Book(k, Free)
  {
    var n := |k.requests| - 1;
    assert k.requests[n] in k.requests;
    assert |AllFiles(k.requests)| > |AllFiles(k.requests[..n])|;
    assert k.files + [] == k.files;
  }

  /** Books are per connection: changing one and its callback leaves the rest. */
  lemma OneBook(s: State, e: State, c: Cid)
    requires Books(s) && c in e.conns && Book(e.conns[c], CallOf(e, c))
    requires e.conns == s.conns[c := e.conns[c]]
    requires forall d <- s.conns | d != c :: CallOf(e, d) == CallOf(s, d)
    ensures Books(e)
  {
    hide Book;
  }

  lemma SameBooks(s: State, e: State)
    requires Books(s) && e.conns == s.conns && e.busy == s.busy
    ensures Books(e)
  {
    hide Book;
  }

  lemma HandleNewKeepsBooks(s: State, w: nat)
    requires Shape(s) && Books(s) && Enabled(s, HandleNew(w))
    ensures Books(Apply(s, HandleNew(w)))
  {
  }

  lemma DeliveryKeepsBooks(s: State, e: State, c: Cid, serial: nat, v: int)
    requires Books(s) && c in s.conns && CallOf(s, c) == Free
    requires serial < |s.conns[c].files| && serial !in s.conns[c].results
    requires s.conns[c].files[serial] != [] ==> IsMax(v, s.conns[c].files[serial])
    requires e.busy == s.busy && e.conns == s.conns[c := Receive(s.conns[c], serial, v)]
    ensures Books(e)
  {
    hide Book, Receive;
    var k := Receive(s.conns[c], serial, v);
    assert Book(k, Free) by {
      assert Book(s.conns[c], CallOf(s, c));
      ReceiveKeepsBook(s.conns[c], serial, v);
    }
    assert e.conns[c] == k && CallOf(e, c) == Free;
    OneBook(s, e, c);
  }

  lemma HandleDoneKeepsBooks(s: State, w: nat)
    requires Books(s) && Enabled(s, HandleDone(w)) && MsgOk(s, w, s.inbox[w][0])
    ensures Books(Apply(s, HandleDone(w)))
  {
    var m, e := s.inbox[w][0], Apply(s, HandleDone(w));
    if m.handle in s.maps[w] {
      DeliveryKeepsBooks(s, e, m.tag.conn, m.tag.serial, m.maxNum);
    } else {
      SameBooks(s, e);
    }
  }

  lemma BeginKeepsBooks(s: State, c: Cid, body: seq<File>)
    requires Books(s) && Enabled(s, BeginRequest(c, body))
    ensures Books(Apply(s, BeginRequest(c, body)))
  {
    hide Book;
    var k, e := s.conns[c], Apply(s, BeginRequest(c, body));
    assert Book(k, CallOf(s, c));
    BeginKeepsBook(k, c, body);
    assert e.conns[c] == k.(requests := k.requests + [body]) && CallOf(e, c) == Posting(c, body, false);
    OneBook(s, e, c);
  }

  lemma PostKeepsBooks(s: State, w: nat)
    requires Books(s) && Enabled(s, PostTask(w)) && s.busy[w].c.worker == w
    ensures Books(Apply(s, PostTask(w)))
  {
    hide Book;
    var Posting(c, rest, _) := s.busy[w];
    var k, e := s.conns[c], Apply(s, PostTask(w));
    assert Book(k, CallOf(s, c));
    PostKeepsBook(k, c, rest);
    assert e.conns[c] == k.(files := k.files + [rest[0]]) && CallOf(e, c) == Posting(c, rest[1..], true);
    OneBook(s, e, c);
  }

  lemma CountKeepsBook(k: Conn, c: Cid, rest: seq<File>)
    requires Book(k, Posting(c, rest, true))
    ensures Book(k.(taskCount := k.taskCount + 1), Posting(c, rest, false))
  {
  }

  lemma CountKeepsBooks(s: State, w: nat)
    requires Books(s) && Enabled(s, CountTask(w)) && s.busy[w].c.worker == w
    ensures Books(Apply(s, CountTask(w)))
  {
    hide Book;
    var Posting(c, rest, _) := s.busy[w];
    var k, e := s.conns[c], Apply(s, CountTask(w));
    assert Book(k, CallOf(s, c));
    CountKeepsBook(k, c, rest);
    assert e.conns[c] == k.(taskCount := k.taskCount + 1) && CallOf(e, c) == Posting(c, rest, false);
    OneBook(s, e, c);
  }

  lemma EndKeepsBooks(s: State, w: nat)
    requires Books(s) && Enabled(s, EndRequest(w)) && s.busy[w].c.worker == w && s.busy[w].c in s.conns
    ensures Books(Apply(s, EndRequest(w)))
  {
    hide Book;
    var c, e := s.busy[w].c, Apply(s, EndRequest(w));
    assert Book(s.conns[c], CallOf(s, c));
    EndKeepsBook(s.conns[c], c);
    OneBook(s, e, c);
  }

  lemma StepKeepsBooks(s: State, a: Action)
    requires Routes(s) && Books(s) && Enabled(s, a)
    ensures Books(Apply(s, a))
  {
    match a
    case HandleNew(w) => HandleNewKeepsBooks(s, w);
    case HandleDone(w) => HandleDoneKeepsBooks(s, w);
    case BeginRequest(c, body) => BeginKeepsBooks(s, c, body);
    case PostTask(w) => PostKeepsBooks(s, w);
    case CountTask(w) => CountKeepsBooks(s, w);
    case EndRequest(w) => EndKeepsBooks(s, w);
    case _ => SameBooks(s, Apply(s, a));
  }

  lemma AppendKeepsBox(q: seq<Msg>, m: Msg, t: Tag)
    ensures InBox(q + [m], t) <==> InBox(q, t) || (m.MapDone? && m.tag == t)
  {
    if InBox(q, t) {
      var i :| 0 <= i < |q| && q[i].MapDone? && q[i].tag == t;
      assert (q + [m])[i] == q[i];
    }
    if m.MapDone? && m.tag == t {
      assert (q + [m])[|q|] == m;
    }
  }

  lemma TailKeepsBox(q: seq<Msg>, t: Tag)
    requires q != [] && InBox(q, t) && (q[0].MapDone? ==> q[0].tag != t)
    ensures InBox(q[1..], t)
  {
  }

  /** A missing result stays on its way until it is handled. */
  lemma StaysOnItsWay(s: State, a: Action, w: nat, t: Tag)
    requires Enabled(s, a) && w < |s.inbox| && w == t.conn.worker && OnItsWay(s, w, t)
    requires a.HandleDone? && a.w == w ==> s.inbox[w][0].tag != t
    ensures |Apply(s, a).inbox| == |s.inbox| && OnItsWay(Apply(s, a), w, t)
  {
    if InBox(s.inbox[w], t) {
      match a
      case Announce(x, v) => AppendKeepsBox(s.inbox[v], NewConnect(x), t);
      case RunTask(u, x) => AppendKeepsBox(s.inbox[u.conn.worker], MapDone(u.conn.fd, x, u), t);
      case HandleNew(v) => if v == w { TailKeepsBox(s.inbox[w], t); }
      case HandleDone(v) => if v == w { TailKeepsBox(s.inbox[w], t); }
      case _ =>
    } else if a.RunTask? && a.t == t {
      AppendKeepsBox(s.inbox[w], MapDone(t.conn.fd, a.v, t), t);
    }
  }

  /** Where a result missing after a step was before it: missing too, or new. */
  lemma WasMissing(s: State, a: Action, w: nat, fd: nat, n: nat)
    requires Shape(s) && Maps(s) && Enabled(s, a) && w < |s.maps|
    requires a.HandleDone? ==> MsgOk(s, a.w, s.inbox[a.w][0])
    requires var e := Apply(s, a);
             && |e.maps| == |s.maps| && fd in e.maps[w] && e.maps[w][fd] in e.conns
             && n < |e.conns[e.maps[w][fd]].files| && n !in e.conns[e.maps[w][fd]].results
    ensures var t := Tag(Apply(s, a).maps[w][fd], n);
            && t.conn.worker == w
            && if a.PostTask? && s.busy[a.w].c == t.conn && n == |s.conns[t.conn].files| then
                 t in Apply(s, a).tasks && Apply(s, a).tasks[t].Queued?
               else
                 && fd in s.maps[w] && s.maps[w][fd] == t.conn && t.conn in s.conns
                 && n < |s.conns[t.conn].files| && n !in s.conns[t.conn].results
                 && (a.HandleDone? && a.w == w ==> s.inbox[w][0].tag != t)
  {
    if fd in s.maps[w] {
      assert Entry(s, w, fd, s.maps[w][fd]);
    }
  }

  lemma StepKeepsInv(s: State, a: Action)
    requires Inv(s) && Enabled(s, a)
    ensures Inv(Apply(s, a))
  {
    hide Books, Receive, Held;
    var e := Apply(s, a);
    StepKeepsRoutes(s, a);
    StepKeepsBooks(s, a);
    forall w, fd, n | 0 <= w < |e.maps| && fd in e.maps[w] && e.maps[w][fd] in e.conns
                      && 0 <= n < |e.conns[e.maps[w][fd]].files| && n !in e.conns[e.maps[w][fd]].results
      ensures OnItsWay(e, w, Tag(e.maps[w][fd], n))
    {
      assert a.HandleDone? ==> MsgOk(s, a.w, s.inbox[a.w][0]);
      WasMissing(s, a, w, fd, n);
      var t := Tag(e.maps[w][fd], n);
      if !(a.PostTask? && s.busy[a.w].c == t.conn && n == |s.conns[t.conn].files|) {
        assert OnItsWay(s, w, Tag(s.maps[w][fd], n));
        StaysOnItsWay(s, a, w, t);
      }
    }
  }

  lemma {:induction false} RunKeepsInv(s: State, acts: seq<Action>)
    requires Inv(s) && Runnable(s, acts)
    ensures Inv(Exec(s, acts))
    decreases |acts|
  {
    if acts != [] {
      StepKeepsInv(s, acts[0]);
      RunKeepsInv(Apply(s, acts[0]), acts[1..]);
    }
  }

  lemma InitHasInv(s: State)
    requires Init(s)
    ensures Inv(s)
  {
    forall w | 0 <= w < |s.inbox| ensures s.inbox[w] == [] && s.maps[w] == map[] && s.busy[w] == Free {
      assert s.inbox[w] in s.inbox && s.maps[w] in s.maps && s.busy[w] in s.busy;
    }
  }

  // ---- what follows --------------------------------------------------------

  /** In every run, however often fds are closed and reused: a result taken from
      a mailbox reaches the very connection that posted its task, or none. */
  lemma NoCrossTalk(s: State, acts: seq<Action>, w: nat)
    requires Init(s) && Runnable(s, acts) && Enabled(Exec(s, acts), HandleDone(w))
    ensures var e := Exec(s, acts); var m := e.inbox[w][0];
            m.handle in e.maps[w] ==> e.maps[w][m.handle] == m.tag.conn
  {
    InitHasInv(s);
    RunKeepsInv(s, acts);
    HandleDoneKeeps(Exec(s, acts), w);
  }

  /** In every run an open fd is a key of at most one worker's map, and adding a
      new connection never meets an existing entry. */
  lemma KeysNeverCollide(s: State, acts: seq<Action>)
    requires Init(s) && Runnable(s, acts)
    ensures var e := Exec(s, acts);
            && (forall v, w, fd {:trigger fd in e.maps[v], fd in e.maps[w]} ::
                  0 <= v < |e.maps| && 0 <= w < |e.maps| && fd in e.maps[v] && fd in e.maps[w] ==> v == w)
            && (forall v: nat, w: nat {:trigger e.maps[v], e.inbox[w]} :: 0 <= v < |e.maps| && Enabled(e, HandleNew(w)) ==>
                  e.inbox[w][0].fd !in e.maps[v])
  {
    InitHasInv(s);
    RunKeepsInv(s, acts);
    var e := Exec(s, acts);
    forall v, w, fd | 0 <= v < |e.maps| && 0 <= w < |e.maps| && fd in e.maps[v] && fd in e.maps[w]
      ensures v == w
    {
      assert Entry(e, v, fd, e.maps[v][fd]) && Entry(e, w, fd, e.maps[w][fd]);
    }
    forall v: nat, w: nat | 0 <= v < |e.maps| && Enabled(e, HandleNew(w)) ensures e.inbox[w][0].fd !in e.maps[v] {
      var fd := e.inbox[w][0].fd;
      assert MsgOk(e, w, e.inbox[w][0]);
      assert fd in e.maps[v] ==> Entry(e, v, fd, e.maps[v][fd]);
    }
  }

  /** The entries a removal takes away: the connection's own, and no other. */
  ghost predicate RemovesOnly(e: State, d: State, c: Cid) {
    && |d.maps| == |e.maps|
    && forall w, fd :: 0 <= w < |e.maps| ==>
         && (fd in d.maps[w] <==> fd in e.maps[w] && e.maps[w][fd] != c)
         && (fd in d.maps[w] ==> d.maps[w][fd] == e.maps[w][fd])
  }

  lemma DestroyIsExact(e: State, c: Cid)
    requires Maps(e) && Owners(e) && Enabled(e, Destroy(c))
    ensures RemovesOnly(e, Apply(e, Destroy(c)), c)
  {
  }

  lemma ReapFreesFd(e: State, c: Cid)
    requires Maps(e) && Owners(e) && Enabled(e, Reap(c))
    ensures var d := Apply(e, Reap(c));
            c !in d.alive && Enabled(d, Accept(c.fd)) && forall w :: 0 <= w < |d.maps| ==> c.fd !in d.maps[w]
  {
  }

  /** In every run: removing a connection takes its entry, and no other, out of
      all maps; and once nothing holds it, it goes, and its fd, which no map
      mentions any more, may be accepted again. */
  lemma RemovalAndReuse(s: State, acts: seq<Action>, c: Cid)
    requires Init(s) && Runnable(s, acts)
    ensures var e := Exec(s, acts);
            && (Enabled(e, Destroy(c)) ==> RemovesOnly(e, Apply(e, Destroy(c)), c))
            && (Enabled(e, Reap(c)) ==>
                  var d := Apply(e, Reap(c));
                  c !in d.alive && Enabled(d, Accept(c.fd)) && forall w :: 0 <= w < |d.maps| ==> c.fd !in d.maps[w])
  {
    InitHasInv(s);
    RunKeepsInv(s, acts);
    var e := Exec(s, acts);
    if Enabled(e, Destroy(c)) {
      DestroyIsExact(e, c);
    }
    if Enabled(e, Reap(c)) {
      ReapFreesFd(e, c);
    }
  }

  lemma ConnHasBook(s: State, acts: seq<Action>, c: Cid)
    requires Init(s) && Runnable(s, acts) && c in Exec(s, acts).conns
    ensures var e := Exec(s, acts);
            Book(e.conns[c], CallOf(e, c)) && c.worker < |e.maps| == |e.inbox| == |e.busy|
  {
    InitHasInv(s);
    RunKeepsInv(s, acts);
  }

  /** In every run, between callbacks of its worker: taskCount_ of a
      connection is the number of posted files whose result is not yet handled,
      and while the connection is in its map each of those results is still to
      be sent or is in the mailbox. There are never more replies than requests,
      and each is the serial maximum of all files of the bodies accepted on the
      connection by then. */
  lemma CountsAndReplies(s: State, acts: seq<Action>, c: Cid)
    requires Init(s) && Runnable(s, acts) && c in Exec(s, acts).conns
    ensures var e := Exec(s, acts); var k := e.conns[c];
            && c.worker < |e.maps| == |e.inbox| == |e.busy|
            && (e.busy[c.worker].Free? ==> k.taskCount == |k.files| - |k.results| && k.files == AllFiles(k.requests))
            && (InMap(e, c) ==> forall n | 0 <= n < |k.files| && n !in k.results :: OnItsWay(e, c.worker, Tag(c, n)))
            && |k.replies| <= |k.requests|
            && (forall r <- k.replies :: Right(k.requests, r))
  {
    ConnHasBook(s, acts, c);
    var e := Exec(s, acts);
    assert e.conns[c].files + [] == e.conns[c].files;
    if InMap(e, c) {
      InitHasInv(s);
      RunKeepsInv(s, acts);
      MissingIsOnItsWay(e, c);
    }
  }

  ghost predicate InMap(e: State, c: Cid) {
    c.worker < |e.maps| && c.fd in e.maps[c.worker] && e.maps[c.worker][c.fd] == c
  }

  lemma MissingIsOnItsWay(e: State, c: Cid)
    requires |e.inbox| == |e.maps| && NothingLost(e) && InMap(e, c) && c in e.conns
    ensures forall n | 0 <= n < |e.conns[c].files| && n !in e.conns[c].results :: OnItsWay(e, c.worker, Tag(c, n))
  {
    forall n | 0 <= n < |e.conns[c].files| && n !in e.conns[c].results ensures OnItsWay(e, c.worker, Tag(c, n)) {
      assert OnItsWay(e, c.worker, Tag(e.maps[c.worker][c.fd], n));
    }
  }

  /** The connection is in its worker's map, the worker is between callbacks, and
      nothing the connection posted is still to come. */
  ghost predicate Settled(e: State, c: Cid) {
    && c.worker < |e.maps| == |e.inbox| == |e.busy|
    && e.busy[c.worker].Free?
    && InMap(e, c)
    && forall n: nat :: !OnItsWay(e, c.worker, Tag(c, n))
  }

  /** The reply to everything asked for so far. */
  ghost predicate AnswersAll(k: Conn) {
    && k.replies != []
    && var r := k.replies[|k.replies| - 1];
       && r.asked == |k.requests| && r.files == AllFiles(k.requests)
       && ((forall f <- r.files :: f != []) ==> IsMax(r.value, Numbers(r.files)))
  }

  lemma LastReplyAnswersAll(k: Conn)
    requires Book(k, Free) && k.requests != [] && forall n | 0 <= n < |k.files| :: n in k.results
    ensures AnswersAll(k)
  {
    assert k.results.Keys == Range(|k.files|);
    var r := k.replies[|k.replies| - 1];
    assert r in k.replies && k.requests[..|k.requests|] == k.requests;
  }

  /** In every run: a settled connection that has sent any number of requests has
      been sent a reply after the last of them, and that reply is the maximum
      over all files of all of them. */
  lemma SettledIsAnswered(s: State, acts: seq<Action>, c: Cid)
    requires Init(s) && Runnable(s, acts) && c in Exec(s, acts).conns
    requires Settled(Exec(s, acts), c) && Exec(s, acts).conns[c].requests != []
    ensures AnswersAll(Exec(s, acts).conns[c])
  {
    CountsAndReplies(s, acts, c);
    ConnHasBook(s, acts, c);
    LastReplyAnswersAll(Exec(s, acts).conns[c]);
  }

  lemma FirstReply(requests: seq<seq<File>>, r: Reply)
    requires Right(requests, r) && |requests| == 1
    ensures r.asked == 1 && r.files == requests[0]
  {
    assert requests[..1] == requests && requests == [] + [requests[0]];
    AllFilesOf([], requests[0]);
    assert [] + requests[0] == requests[0];
  }

  /** A client that has sent one request, all of whose files hold numbers, never
      gets more than one reply; the reply is the serial maximum over its files;
      and once the connection has settled it has been sent. */
  lemma AnswerIsSerialMax(s: State, acts: seq<Action>, c: Cid)
    requires Init(s) && Runnable(s, acts) && c in Exec(s, acts).conns
    requires var k := Exec(s, acts).conns[c]; |k.requests| == 1 && forall f <- k.requests[0] :: f != []
    ensures var e := Exec(s, acts); var k := e.conns[c];
            && |k.replies| <= 1
            && (forall r <- k.replies :: IsMax(r.value, Numbers(k.requests[0])))
            && (Settled(e, c) ==> |k.replies| == 1)
  {
    CountsAndReplies(s, acts, c);
    var e := Exec(s, acts);
    forall r <- e.conns[c].replies ensures IsMax(r.value, Numbers(e.conns[c].requests[0])) {
      FirstReply(e.conns[c].requests, r);
    }
    if Settled(e, c) {
      SettledIsAnswered(s, acts, c);
    }
  }

  // ---- later replies -------------------------------------------------------

  lemma {:induction false} NumbersOf(a: seq<File>, b: seq<File>)
    ensures Numbers(a + b) == Numbers(a) + Numbers(b)
  {
    if b == [] {
      assert a + b == a;
    } else {
      var n := |b| - 1;
      NumbersOf(a, b[..n]);
      assert (a + b)[..|a + b| - 1] == a + b[..n];
    }
  }

  /** No number of an earlier body exceeds all numbers of body n. */
  ghost predicate Tops(requests: seq<seq<File>>, n: nat)
    requires n < |requests|
  {
    forall x <- Numbers(AllFiles(requests[..n])) :: exists y :: y in Numbers(requests[n]) && x <= y
  }

  lemma MaxOfBoth(m: int, a: seq<int>, b: seq<int>)
    requires IsMax(m, a + b)
    ensures IsMax(m, b) <==> forall x <- a :: exists y :: y in b && x <= y
  {
    forall x | x in a || x in b ensures x <= m {
      assert x in a + b;
    }
    if m !in b && forall x <- a :: exists y :: y in b && x <= y {
      assert m in a;
      var y :| y in b && m <= y;
    }
  }

  lemma OwnAnswerIff(requests: seq<seq<File>>, r: Reply)
    requires Right(requests, r) && forall f <- r.files :: f != []
    ensures IsMax(r.value, Numbers(requests[r.asked - 1])) <==> Tops(requests, r.asked - 1)
  {
    var n := r.asked - 1;
    assert requests[..r.asked] == requests[..n] + [requests[n]];
    AllFilesOf(requests[..n], requests[n]);
    NumbersOf(AllFiles(requests[..n]), requests[n]);
    MaxOfBoth(r.value, Numbers(AllFiles(requests[..n])), Numbers(requests[n]));
  }

  /** Since firstCome_ is never reset, a later reply need not answer its own
      request. In every run, for every reply whose files all hold numbers: it is
      the maximum over the body it follows if and only if no number of an
      earlier body on the connection exceeds all numbers of that body. */
  lemma LaterReplies(s: State, acts: seq<Action>, c: Cid, r: Reply)
    requires Init(s) && Runnable(s, acts) && c in Exec(s, acts).conns
    requires r in Exec(s, acts).conns[c].replies && forall f <- r.files :: f != []
    ensures var requests := Exec(s, acts).conns[c].requests;
            && 1 <= r.asked <= |requests|
            && (IsMax(r.value, Numbers(requests[r.asked - 1])) <==> Tops(requests, r.asked - 1))
  {
    CountsAndReplies(s, acts, c);
    OwnAnswerIff(Exec(s, acts).conns[c].requests, r);
  }

  /** `e` is the outcome of some run from `s`. */
  ghost predicate Reaches(s: State, e: State) {
    exists acts :: Runnable(s, acts) && Exec(s, acts) == e
  }

  lemma ReachesSelf(s: State)
    ensures Reaches(s, s)
  {
    assert Runnable(s, []) && Exec(s, []) == s;
  }

  lemma {:induction false} Onward(s: State, acts: seq<Action>, a: Action)
    requires Runnable(s, acts) && Enabled(Exec(s, acts), a)
    ensures Runnable(s, acts + [a]) && Exec(s, acts + [a]) == Apply(Exec(s, acts), a)
    decreases |acts|
  {
    if acts == [] {
      assert acts + [a] == [a] && [a][1..] == [];
    } else {
      assert (acts + [a])[1..] == acts[1..] + [a];
      Onward(Apply(s, acts[0]), acts[1..], a);
    }
  }

  lemma ReachesNext(s: State, m: State, a: Action)
    requires Reaches(s, m) && Enabled(m, a)
    ensures Reaches(s, Apply(m, a))
  {
    var acts :| Runnable(s, acts) && Exec(s, acts) == m;
    Onward(s, acts, a);
  }

  /** The connection after a request for `files` has been posted and counted. */
  function Posted(k: Conn, body: seq<File>, n: nat): Conn
    requires n <= |body|
  {
    k.(requests := k.requests + [body], files := k.files + body[..n], taskCount := k.taskCount + n)
  }

  /** The tasks of `s` and n more: those of the next n files of the connection. */
  ghost predicate MoreTasks(s: State, tasks: map<Tag, Stage>, c: Cid, n: nat)
    requires c in s.conns
  {
    forall t: Tag ::
      var recent := t.conn == c && |s.conns[c].files| <= t.serial < |s.conns[c].files| + n;
      (t in tasks <==> t in s.tasks || recent) && (t in tasks ==> tasks[t] == if recent then Queued else s.tasks[t])
  }

  /** Inside the callback, with the first n files of the body posted and counted. */
  ghost predicate PostedSoFar(s: State, e: State, c: Cid, body: seq<File>, n: nat)
    requires c in s.conns && n <= |body|
  {
    && c.worker < |s.busy|
    && e == s.(conns := s.conns[c := Posted(s.conns[c], body, n)], tasks := e.tasks,
               busy := s.busy[c.worker := Posting(c, body[n..], false)])
    && MoreTasks(s, e.tasks, c, n)
  }

  lemma BeginPosts(s0: State, s: State, c: Cid, body: seq<File>) returns (e: State)
    requires Ready(s, c) && body != [] && Reaches(s0, s)
    ensures Reaches(s0, e) && PostedSoFar(s, e, c, body, 0) && e.conns == s.conns[c := Posted(s.conns[c], body, 0)]
  {
    hide Reaches;
    e := Apply(s, BeginRequest(c, body));
    ReachesNext(s0, s, BeginRequest(c, body));
    assert body[0..] == body && s.conns[c].files + body[..0] == s.conns[c].files;
  }

  lemma OneMoreTask(s: State, tasks: map<Tag, Stage>, c: Cid, n: nat)
    requires c in s.conns && MoreTasks(s, tasks, c, n)
    ensures MoreTasks(s, tasks[Tag(c, |s.conns[c].files| + n) := Queued], c, n + 1)
  {
  }

  /** One turn of the posting loop: post a task, then count it. */
  lemma PostOne(s0: State, s: State, e: State, c: Cid, body: seq<File>, n: nat) returns (d: State)
    requires c in s.conns && n < |body| && PostedSoFar(s, e, c, body, n) && Worker(s, c.worker) && Reaches(s0, e)
    ensures Reaches(s0, d) && PostedSoFar(s, d, c, body, n + 1) && d.conns == s.conns[c := Posted(s.conns[c], body, n + 1)]
  {
    hide Reaches, MoreTasks;
    OneMoreTask(s, e.tasks, c, n);
    var m := Apply(e, PostTask(c.worker));
    ReachesNext(s0, e, PostTask(c.worker));
    d := Apply(m, CountTask(c.worker));
    ReachesNext(s0, m, CountTask(c.worker));
    assert body[n..][1..] == body[n + 1..] && body[..n] + [body[n]] == body[..n + 1];
    assert s.conns[c].files + body[..n] + [body[n]] == s.conns[c].files + body[..n + 1];
  }

  /** The state after a whole request: as before, but with the files of the body
      posted as tasks and counted. */
  ghost predicate Requested(s: State, e: State, c: Cid, body: seq<File>)
    requires c in s.conns
  {
    && e == s.(conns := s.conns[c := Posted(s.conns[c], body, |body|)], tasks := e.tasks)
    && MoreTasks(s, e.tasks, c, |body|)
  }

  lemma EndPosts(s: State, e: State, c: Cid, body: seq<File>) returns (d: State)
    requires Ready(s, c) && PostedSoFar(s, e, c, body, |body|) && Reaches(s, e)
    ensures Reaches(s, d) && Requested(s, d, c, body) && d.conns == e.conns
  {
    hide Reaches;
    assert body[|body|..] == [];
    d := Apply(e, EndRequest(c.worker));
    ReachesNext(s, e, EndRequest(c.worker));
    assert d.busy == s.busy;
  }

  /** The numbers in the files of these paths. */
  function Files(disk: string -> File, paths: seq<string>): (r: seq<File>)
    ensures |r| == |paths|
  {
    seq(|paths|, i requires 0 <= i < |paths| => disk(paths[i]))
  }

  /** A request for these paths has been taken on: the next files of the connection
      are theirs, in order, each has its task in the pool, and taskCount_ has
      been raised by as many. Nothing else has changed. */
  ghost predicate Answerable(s: State, e: State, c: Cid, disk: string -> File, paths: seq<string>)
    requires c in s.conns && c in e.conns
  {
    var k, k' := s.conns[c], e.conns[c];
    && |k'.files| == |k.files| + |paths| && k'.files[..|k.files|] == k.files
    && (forall i | 0 <= i < |paths| :: k'.files[|k.files| + i] == disk(paths[i]))
    && (forall n | |k.files| <= n < |k'.files| :: Tag(c, n) in e.tasks && e.tasks[Tag(c, n)] == Queued)
    && k'.requests == k.requests + [k'.files[|k.files|..]]
    && k'.taskCount == k.taskCount + |paths|
    && k' == k.(files := k'.files, requests := k'.requests, taskCount := k'.taskCount)
    && e == s.(conns := s.conns[c := k'], tasks := e.tasks)
    && (forall t <- s.tasks :: t.conn != c ==> t in e.tasks && e.tasks[t] == s.tasks[t])
    && (forall t <- e.tasks :: t.conn != c ==> t in s.tasks)
  }

  lemma AnswerableIf(s: State, e: State, c: Cid, disk: string -> File, paths: seq<string>)
    requires c in s.conns && Requested(s, e, c, Files(disk, paths))
    ensures Answerable(s, e, c, disk, paths)
  {
    var k, body := s.conns[c], Files(disk, paths);
    assert body[..|paths|] == body;
    assert e.conns[c].files == k.files + body;
    assert (k.files + body)[|k.files|..] == body;
  }

  /** A state in which the connection's worker has nothing to do. */
  ghost predicate Calm(s: State, c: Cid) {
    Ready(s, c) && InMap(s, c) && s.inbox[c.worker] == [] && forall t <- s.tasks :: t.conn != c
  }

  /** A request for one file with the one number v, from the body to the result. */
  function Served(k: Conn, v: int): Conn {
    Receive(Posted(k, [[v]], 1), |k.files|, v)
  }

  lemma RunPosted(s0: State, s: State, e: State, c: Cid, v: int) returns (d: State)
    requires Calm(s, c) && PostedSoFar(s, e, c, [[v]], 1) && Reaches(s0, e)
    ensures var k := s.conns[c]; var t := Tag(c, |k.files|);
            && Reaches(s0, d)
            && d == s.(conns := s.conns[c := Posted(k, [[v]], 1)], tasks := s.tasks[t := Sent],
                       inbox := s.inbox[c.worker := [MapDone(c.fd, v, t)]])
  {
    hide Reaches;
    var w, t := c.worker, Tag(c, |s.conns[c].files|);
    assert t in e.tasks && e.tasks[t] == Queued;
    var e1 := Apply(e, EndRequest(w));
    ReachesNext(s0, e, EndRequest(w));
    assert e1.busy == s.busy;
    assert e1.conns[c].files[t.serial] == [v] && IsMax(v, [v]);
    d := Apply(e1, RunTask(t, v));
    ReachesNext(s0, e1, RunTask(t, v));
    assert s.inbox[w] + [MapDone(c.fd, v, t)] == [MapDone(c.fd, v, t)];
    assert d.tasks == s.tasks[t := Sent];
  }

  lemma ServePosted(s0: State, s: State, e: State, c: Cid, v: int) returns (d: State)
    requires Calm(s, c) && PostedSoFar(s, e, c, [[v]], 1) && Reaches(s0, e)
    ensures Reaches(s0, d) && d == s.(conns := s.conns[c := Served(s.conns[c], v)])
  {
    hide Reaches;
    var w, t := c.worker, Tag(c, |s.conns[c].files|);
    var e2 := RunPosted(s0, s, e, c, v);
    assert e2.inbox[w][1..] == [];
    var e3 := Apply(e2, HandleDone(w));
    ReachesNext(s0, e2, HandleDone(w));
    assert e3.inbox == s.inbox;
    d := Apply(e3, DropTask(t));
    ReachesNext(s0, e3, DropTask(t));
    assert d.tasks == s.tasks;
  }

  /** Left alone, the server takes a request for one number through to its end. */
  lemma ServeOne(s0: State, s: State, c: Cid, v: int) returns (d: State)
    requires Calm(s, c) && Reaches(s0, s)
    ensures Reaches(s0, d) && d == s.(conns := s.conns[c := Served(s.conns[c], v)]) && Calm(d, c)
  {
    hide Reaches;
    var body := [[v]];
    var e := BeginPosts(s0, s, c, body);
    var e2 := PostOne(s0, s, e, c, body, 0);
    d := ServePosted(s0, s, e2, c, v);
  }

  /** A server with one worker and one client that has just connected. */
  lemma OneClient() returns (s: State, e: State, c: Cid)
    ensures Init(s) && Reaches(s, e) && Calm(e, c) && e.conns[c] == FRESH
  {
    hide Reaches;
    s := State([[]], [map[]], [Free], map[], map[], {}, map[], 0);
    c := Cid(0, 5, 0);
    ReachesSelf(s);
    var s1 := Apply(s, Accept(5));
    ReachesNext(s, s, Accept(5));
    var s2 := Apply(s1, Announce(5, 0));
    ReachesNext(s, s1, Announce(5, 0));
    assert s2.inbox[0] == [NewConnect(5)] && s2.inbox[0][1..] == [];
    e := Apply(s2, HandleNew(0));
    ReachesNext(s, s2, HandleNew(0));
    assert e.maps[0][5] == c;
  }

  /** For every two numbers there is a run in which a client asks for the first,
      is answered, then asks for the second, and is sent the larger of both: the
      wrong answer whenever the first is the larger. */
  lemma SecondReplyMayBeWrong(a: int, b: int) returns (s: State, e: State, c: Cid)
    ensures Init(s) && Reaches(s, e) && c in e.conns
    ensures var k := e.conns[c];
            && k.requests == [[[a]], [[b]]] && |k.replies| == 2
            && k.replies[0].value == a
            && k.replies[1].asked == 2 && k.replies[1].value == Reduce(a, b)
            && (a > b ==> !IsMax(k.replies[1].value, Numbers(k.requests[1])))
  {
    hide Reaches;
    var s1, s2;
    s, s1, c := OneClient();
    s2 := ServeOne(s, s1, c, a);
    e := ServeOne(s, s2, c, b);
    ServedTwice(a, b);
  }

  lemma ServedTwice(a: int, b: int)
    ensures var k := Served(Served(FRESH, a), b);
            && k.requests == [[[a]], [[b]]] && |k.replies| == 2
            && k.replies[0].value == a && k.replies[1].asked == 2 && k.replies[1].value == Reduce(a, b)
            && (a > b ==> !IsMax(k.replies[1].value, Numbers(k.requests[1])))
  {
    var k := Served(FRESH, a);
    assert k.requests == [[[a]]] && k.replies == [Reply(a, 1, k.files)];
    assert Served(k, b).replies == k.replies + [Reply(Reduce(a, b), 2, Served(k, b).files)];
    assert Numbers([[b]]) == Numbers([]) + [b] by {
      assert [[b]][..0] == [];
    }
  }

  // ---- the objects ---------------------------------------------------------

  datatype Answer = Silence | Send(value: int)

  /** The fields of a MapReduceConnection; `k` is the connection they belong to. */
  class MapReduceConnection {
    var firstCome: bool
    var taskCount: int
    var curMaxNum: int

    ghost predicate Shows(k: Conn)
      reads this
    {
      firstCome == k.firstCome && taskCount == k.taskCount && curMaxNum == k.curMax
    }

    constructor ()
      ensures Shows(FRESH)
    {
      firstCome, taskCount, curMaxNum := true, 0, 0;
    }

    method OnMessage(maxNum: int, ghost k: Conn, ghost serial: nat) returns (answer: Answer)
      requires Shows(k)
      modifies this
      ensures Shows(Receive(k, serial, maxNum))
      ensures Receive(k, serial, maxNum).replies ==
              k.replies + if answer.Send? then [Reply(answer.value, |k.requests|, k.files)] else []
    {
      taskCount := taskCount - 1;
      if firstCome {
        curMaxNum := maxNum;
        firstCome := false;
      } else {
        curMaxNum := Reduce(curMaxNum, maxNum);
      }
      answer := if taskCount == 0 then Send(curMaxNum) else Silence;
    }

    /** A request body: post one task per path and count it. A body that has been
        received is never empty, so a request always posts something. `disk` says
        which numbers each file holds. The ghost states run the machine along:
        begin, post and count for each path, end. */
    method OnBody(body: string, ghost disk: string -> File, ghost s: State, ghost c: Cid)
      returns (posted: seq<string>, ghost e: State)
      requires Ready(s, c) && Shows(s.conns[c])
      modifies this`taskCount
      ensures posted == Text.Tokens(body, ' ') && (body != "" ==> posted != [])
      ensures posted == [] ==> e == s
      ensures posted != [] ==> Reaches(s, e) && c in e.conns && Answerable(s, e, c, disk, posted)
      ensures Shows(e.conns[c])
    {
      hide Reaches, PostedSoFar, Requested, Held;
      var vecStr := Text.Split(body, ' ');
      posted := [];
      e := s;
      if vecStr == [] {
        return;
      }
      ghost var files := Files(disk, vecStr);
      ReachesSelf(s);
      e := BeginPosts(s, s, c, files);
      for i := 0 to |vecStr|
        invariant posted == vecStr[..i]
        invariant Reaches(s, e) && PostedSoFar(s, e, c, files, i)
        invariant e.conns == s.conns[c := Posted(s.conns[c], files, i)] && Shows(e.conns[c])
      {
        e := PostOne(s, s, e, c, files, i);
        posted := posted + [vecStr[i]];
        taskCount := taskCount + 1;
      }
      e := EndPosts(s, e, c, files);
      assert posted == vecStr;
      AnswerableIf(s, e, c, disk, posted);
    }
  }

  datatype Route = Missing | Found(c: Cid)

  /** A worker's connection map. */
  class NetWorkService {
    var connectionMap: map<nat, Cid>

    /** The object is worker w of the state. */
    ghost predicate Shows(s: State, w: nat)
      reads this
    {
      w < |s.maps| && connectionMap == s.maps[w]
    }

    constructor ()
      ensures connectionMap == map[]
    {
      connectionMap := map[];
    }

    method AddNewConnection(c: Cid) returns (added: bool)
      modifies this
      ensures connectionMap == Insert(old(connectionMap), c) && added == (c.fd !in old(connectionMap))
    {
      added := c.fd !in connectionMap;
      if added {
        connectionMap := connectionMap[c.fd := c];
      }
    }

    method RemoveConnection(handle: nat)
      modifies this
      ensures connectionMap == old(connectionMap) - {handle}
    {
      connectionMap := map fd | fd in connectionMap && fd != handle :: connectionMap[fd];
    }

    /** A new connection: its key is free, and the map goes on showing the state. */
    method OnNewConnect(c: Cid, ghost s: State, ghost w: nat)
      requires Shows(s, w) && Routes(s) && Enabled(s, HandleNew(w)) && c == Cid(s.nextId, s.inbox[w][0].fd, w)
      modifies this
      ensures Shows(Apply(s, HandleNew(w)), w)
      ensures c.fd !in old(connectionMap) && connectionMap == old(connectionMap)[c.fd := c]
    {
      HandleNewKeeps(s, w);
      var added := AddNewConnection(c);
      assert added;
    }

    /** A result: the message only names an fd, but what is found under it is the
        connection that asked, and nothing is found only if that one is gone. The
        state moves on by delivering the result to what was found. */
    method OnConnectionMsg(handle: nat, ghost s: State, ghost w: nat) returns (r: Route)
      requires Shows(s, w) && Routes(s) && Enabled(s, HandleDone(w)) && handle == s.inbox[w][0].handle
      ensures var asker := s.inbox[w][0].tag.conn;
              r == if InMap(s, asker) then Found(asker) else Missing
      ensures var m := s.inbox[w][0]; var e := Apply(s, HandleDone(w));
              && Shows(e, w)
              && e.conns == if r.Found? then s.conns[r.c := Receive(s.conns[r.c], m.tag.serial, m.maxNum)] else s.conns
    {
      HandleDoneKeeps(s, w);
      assert MsgOk(s, w, s.inbox[w][0]);
      r := if handle in connectionMap then Found(connectionMap[handle]) else Missing;
    }

    method OnDestroy(c: Cid, ghost s: State)
      requires Shows(s, c.worker) && Routes(s) && Enabled(s, Destroy(c))
      modifies this
      ensures Shows(Apply(s, Destroy(c)), c.worker)
      ensures forall fd :: fd in connectionMap <==> fd in old(connectionMap) && old(connectionMap)[fd] != c
    {
      DestroyIsExact(s, c);
      RemoveConnection(c.fd);
    }
  }
}
