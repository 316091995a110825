/** Stream: a connected socket with one outstanding receive and one outstanding
    send, each carried out by as many partial transfers as the kernel likes.
    What recv and send return is the environment's choice; event handlers are
    one-shot, so a side whose handler is not armed gets no event.
  */
module StreamIo {

  type Byte = b: int | 0 <= b < 256

  const DEFAULT_BUFF_LEN: int := 1024

  datatype Stat = RECVING | RECVED | RECVERR | SENDING | SENDED | SENDERR

  /** What recv() comes back with. */
  datatype Arrival = Chunk(bytes: seq<Byte>) | PeerClosed | RecvAgain | RecvBroken

  /** What send() comes back with. */
  datatype Departure = Sent(n: nat) | SentNothing | SendAgain | SendBroken

  /** No completion callback, or one with this status. */
  datatype Completion = Nothing | Done(stat: Stat)

  datatype RecvSide = RecvSide(buf: seq<Byte>, len: int, need: int, stat: Stat, armed: bool) {

    predicate Accepts(o: Arrival) {
      && armed && 0 <= len && 0 < need && len + need <= |buf|
      && (o.Chunk? ==> 1 <= |o.bytes| <= need)
    }
  }

  datatype SendSide = SendSide(buf: seq<Byte>, len: int, need: int, stat: Stat, armed: bool) {

    predicate Accepts(o: Departure) {
      && armed && 0 <= len && 0 <= need && len + need <= |buf|
      && (o.Sent? ==> 1 <= o.n <= need)
    }
  }

  /** vector::resize */
  function Resize(s: seq<Byte>, n: nat): (r: seq<Byte>)
    ensures |r| == n
    ensures forall i :: 0 <= i < n ==> r[i] == if i < |s| then s[i] else 0
  {
    if n <= |s| then s[..n] else s + seq(n - |s|, _ => 0)
  }

  /** `callback`: a completion callback was given. `registers`: what the reactor
      says to the read handler; if it refuses, the fields are set all the same. */
  function AsyncRecv(r: RecvSide, num: int, callback: bool, registers: bool): (RecvSide, bool) {
    if !callback || num > DEFAULT_BUFF_LEN || num <= 0 then (r, false)
    else (RecvSide(Resize(r.buf, num), 0, num, r.stat, r.armed || registers), registers)
  }

  /** One readable event. */
  function OnRead(r: RecvSide, o: Arrival): (RecvSide, Completion)
    requires r.Accepts(o)
  {
    match o
    case PeerClosed => (r.(stat := RECVERR, armed := false), Done(RECVERR))
    case RecvBroken => (r.(stat := RECVERR, armed := false), Done(RECVERR))
    case RecvAgain => (r.(stat := RECVING), Nothing)
    case Chunk(bs) =>
      var buf := r.buf[..r.len] + bs + r.buf[r.len + |bs|..];
      if |bs| < r.need then (RecvSide(buf, r.len + |bs|, r.need - |bs|, RECVING, true), Nothing)
      else (r.(buf := buf, stat := RECVED, armed := false), Done(RECVED))
  }

  function AsyncSend(r: SendSide, bytes: seq<Byte>, callback: bool, registers: bool): (SendSide, bool) {
    if !callback || |bytes| > DEFAULT_BUFF_LEN then (r, false)
    else (SendSide(bytes, 0, |bytes|, r.stat, r.armed || registers), registers)
  }

  /** One writable event: new state, bytes that left, completion. */
  function OnWrite(r: SendSide, o: Departure): (SendSide, seq<Byte>, Completion)
    requires r.Accepts(o)
  {
    match o
    case SendAgain => (r.(stat := SENDING), [], Nothing)
    case SendBroken => (r.(stat := SENDERR, armed := false), [], Done(SENDERR))
    case SentNothing => (r.(stat := SENDERR, armed := false), [], Done(SENDERR))
    case Sent(n) =>
      var bytes := r.buf[r.len..r.len + n];
      if n < r.need then (SendSide(r.buf, r.len + n, r.need - n, SENDING, true), bytes, Nothing)
      else (r.(stat := SENDED, armed := false), bytes, Done(SENDED))
  }

  // ---- one accepted receive ------------------------------------------------

  /** `got` of the `n` bytes asked for are in the buffer, the rest is awaited. */
  ghost predicate Receiving(r: RecvSide, n: int, got: seq<Byte>) {
    && r.armed && |r.buf| == n && r.len + r.need == n && r.len == |got| && 0 < r.need
    && r.buf[..r.len] == got
  }

  /** A receive is accepted exactly for a callback, 1..1024 bytes and a reactor
      that takes the handler. A refused one changes nothing, except that with a
      reactor that refuses, the bytes received so far are forgotten; on an idle
      stream no event will come either way. */
  lemma RecvStarts(r: RecvSide, num: int, callback: bool, registers: bool)
    ensures var (e, ok) := AsyncRecv(r, num, callback, registers);
            && (ok <==> callback && 1 <= num <= DEFAULT_BUFF_LEN && registers)
            && (ok ==> Receiving(e, num, []))
            && e.stat == r.stat
            && (!ok ==> e.armed == r.armed && (e == r || (!registers && e.len == 0)))
            && (!callback || num <= 0 || num > DEFAULT_BUFF_LEN ==> e == r)
  {
  }

  /** The kernel may cut a receive as it likes, ask for a retry, fail or report the
      end; dually for a send below. */
  lemma RecvIsFree(r: RecvSide, n: int, got: seq<Byte>, o: Arrival)
    requires Receiving(r, n, got)
    ensures r.Accepts(o) <==> (o.Chunk? ==> 1 <= |o.bytes| <= n - |got|)
  {
  }

  /** Each event leaves the receive going with the bytes added, or ends it: with
      exactly the n bytes, or with an error. */
  lemma ReadAdvances(r: RecvSide, n: int, got: seq<Byte>, o: Arrival)
    requires Receiving(r, n, got) && r.Accepts(o)
    ensures var (e, c) := OnRead(r, o); e.stat == if c.Done? then c.stat else RECVING
    ensures var (e, _) := OnRead(r, o); !o.Chunk? ==> e == r.(stat := e.stat, armed := e.armed)
    ensures var (e, c) := OnRead(r, o);
            match o
            case PeerClosed => c == Done(RECVERR) && !e.armed
            case RecvBroken => c == Done(RECVERR) && !e.armed
            case RecvAgain => c == Nothing && Receiving(e, n, got)
            case Chunk(bs) =>
              if |got + bs| < n then c == Nothing && Receiving(e, n, got + bs)
              else c == Done(RECVED) && !e.armed && e.buf == got + bs && |got + bs| == n
  {
  }

  ghost function Bytes(os: seq<Arrival>): seq<Byte> {
    if os == [] then [] else (if os[0].Chunk? then os[0].bytes else []) + Bytes(os[1..])
  }

  ghost function Chunks(os: seq<Arrival>): nat {
    if os == [] then 0 else (if os[0].Chunk? then 1 else 0) + Chunks(os[1..])
  }

  /** A schedule the kernel may follow: events only while the handler is armed. */
  ghost predicate ReadSchedule(r: RecvSide, os: seq<Arrival>)
    decreases |os|
  {
    os == [] || (r.Accepts(os[0]) && ReadSchedule(OnRead(r, os[0]).0, os[1..]))
  }

  /** State and completions after a schedule. */
  ghost function ReadRun(r: RecvSide, os: seq<Arrival>): (RecvSide, seq<Stat>)
    requires ReadSchedule(r, os)
    decreases |os|
  {
    if os == [] then (r, []) else
      var (r1, c) := OnRead(r, os[0]);
      var (e, cs) := ReadRun(r1, os[1..]);
      (e, if c.Done? then [c.stat] + cs else cs)
  }

  /** A schedule goes on after its first event only if that did not complete. */
  lemma ReadUnfolds(r: RecvSide, os: seq<Arrival>)
    requires os != [] && ReadSchedule(r, os)
    ensures var (r1, c) := OnRead(r, os[0]);
            if c == Nothing then ReadRun(r, os) == ReadRun(r1, os[1..])
            else os == [os[0]] && ReadRun(r, os) == (r1, [c.stat]) && Bytes(os[1..]) == [] && Chunks(os[1..]) == 0
  {
    var (r1, c) := OnRead(r, os[0]);
    if c.Done? {
      assert os[1..] == [];
      assert [c.stat] + [] == [c.stat];
    }
  }

  /** For every schedule of partial transfers, retries and failures, an accepted
      receive completes at most once; with success only if the bytes delivered
      are exactly the n asked for, and then those are what the callback gets;
      not at all only while fewer have come. At most n transfers make progress. */
  lemma {:induction false} ReceiveIsExact(r: RecvSide, n: int, got: seq<Byte>, os: seq<Arrival>)
    requires Receiving(r, n, got) && ReadSchedule(r, os)
    ensures var (e, cs) := ReadRun(r, os); var all := got + Bytes(os);
            && |got| + Chunks(os) <= |all| <= n
            && if cs == [] then Receiving(e, n, all)
               else if cs == [RECVED] then !e.armed && |all| == n && e.buf == all
               else cs == [RECVERR] && !e.armed && |all| < n
    decreases |os|
  {
    if os == [] {
      assert got + Bytes(os) == got;
    } else {
      ReadAdvances(r, n, got, os[0]);
      ReadUnfolds(r, os);
      var got1 := if os[0].Chunk? then got + os[0].bytes else got;
      assert got1 + Bytes(os[1..]) == got + Bytes(os);
      if OnRead(r, os[0]).1 == Nothing {
        ReceiveIsExact(OnRead(r, os[0]).0, n, got1, os[1..]);
      } else {
        assert got1 + [] == got1;
      }
    }
  }

  // ---- one accepted send ---------------------------------------------------

  /** `left` is what has not yet been handed to the kernel. */
  ghost predicate Sending(r: SendSide, left: seq<Byte>) {
    && r.armed && 0 <= r.len && 0 <= r.need && r.len + r.need == |r.buf| && r.buf[r.len..] == left
  }

  lemma SendStarts(r: SendSide, bytes: seq<Byte>, callback: bool, registers: bool)
    ensures var (e, ok) := AsyncSend(r, bytes, callback, registers);
            && (ok <==> callback && |bytes| <= DEFAULT_BUFF_LEN && registers)
            && (ok ==> Sending(e, bytes))
            && e.stat == r.stat
            && (!ok ==> e.armed == r.armed && (e == r || (!registers && e.len == 0)))
            && (!callback || |bytes| > DEFAULT_BUFF_LEN ==> e == r)
  {
  }

  lemma SendIsFree(r: SendSide, left: seq<Byte>, o: Departure)
    requires Sending(r, left)
    ensures r.Accepts(o) <==> (o.Sent? ==> 1 <= o.n <= |left|)
  {
  }

  lemma WriteAdvances(r: SendSide, left: seq<Byte>, o: Departure)
    requires Sending(r, left) && r.Accepts(o)
    ensures var (e, _, c) := OnWrite(r, o); e.stat == if c.Done? then c.stat else SENDING
    ensures var (e, _, _) := OnWrite(r, o); e.buf == r.buf && (!o.Sent? ==> e == r.(stat := e.stat, armed := e.armed))
    ensures var (e, bytes, c) := OnWrite(r, o);
            match o
            case SendAgain => c == Nothing && bytes == [] && Sending(e, left)
            case SendBroken => c == Done(SENDERR) && bytes == [] && !e.armed
            case SentNothing => c == Done(SENDERR) && bytes == [] && !e.armed
            case Sent(n) =>
              && n <= |left| && bytes == left[..n]
              && if n < |left| then c == Nothing && Sending(e, left[n..]) else c == Done(SENDED) && !e.armed
  {
  }

  ghost predicate WriteSchedule(r: SendSide, os: seq<Departure>)
    decreases |os|
  {
    os == [] || (r.Accepts(os[0]) && WriteSchedule(OnWrite(r, os[0]).0, os[1..]))
  }

  ghost function WriteRun(r: SendSide, os: seq<Departure>): (SendSide, seq<Byte>, seq<Stat>)
    requires WriteSchedule(r, os)
    decreases |os|
  {
    if os == [] then (r, [], []) else
      var (r1, bytes, c) := OnWrite(r, os[0]);
      var (e, rest, cs) := WriteRun(r1, os[1..]);
      (e, bytes + rest, if c.Done? then [c.stat] + cs else cs)
  }

  lemma WriteUnfolds(r: SendSide, os: seq<Departure>)
    requires os != [] && WriteSchedule(r, os)
    ensures var (r1, bytes, c) := OnWrite(r, os[0]);
            if c == Nothing then
              var (e, rest, cs) := WriteRun(r1, os[1..]); WriteRun(r, os) == (e, bytes + rest, cs)
            else os == [os[0]] && WriteRun(r, os) == (r1, bytes, [c.stat])
  {
    var (r1, bytes, c) := OnWrite(r, os[0]);
    if c.Done? {
      assert os[1..] == [];
      assert [c.stat] + [] == [c.stat] && bytes + [] == bytes;
    }
  }

  lemma AfterPrefix(a: seq<Byte>, b: seq<Byte>, c: seq<Byte>)
    requires b <= c
    ensures a + b <= a + c && (a + c)[|a + b|..] == c[|b|..] && (a + b == a + c <==> b == c)
  {
  }

  /** For every schedule, an accepted send of a non-empty message emits a prefix
      of it and completes at most once: with success exactly when the whole
      message has left, with an error only when it has not. */
  lemma {:induction false} SendIsExact(r: SendSide, left: seq<Byte>, os: seq<Departure>)
    requires Sending(r, left) && left != [] && WriteSchedule(r, os)
    ensures var (e, bytes, cs) := WriteRun(r, os);
            && bytes <= left
            && if cs == [] then bytes < left && Sending(e, left[|bytes|..])
               else if cs == [SENDED] then bytes == left && !e.armed
               else cs == [SENDERR] && bytes < left && !e.armed
    decreases |os|
  {
    if os != [] {
      WriteAdvances(r, left, os[0]);
      WriteUnfolds(r, os);
      var (r1, bytes, c) := OnWrite(r, os[0]);
      var left1 := left[|bytes|..];
      assert left == bytes + left1;
      if c == Nothing {
        SendIsExact(r1, left1, os[1..]);
        var rest := WriteRun(r1, os[1..]).1;
        AfterPrefix(bytes, rest, left1);
      }
    }
  }

  // ---- the object ----------------------------------------------------------

  class Stream {
    var recvBuf: seq<Byte>
    var recvLen: int
    var needRecvLen: int
    var recvStat: Stat
    var readArmed: bool
    var sendBuf: seq<Byte>
    var sendLen: int
    var needSendLen: int
    var sendStat: Stat
    var writeArmed: bool

    ghost function Recv(): RecvSide
      reads this
    {
      RecvSide(recvBuf, recvLen, needRecvLen, recvStat, readArmed)
    }

    ghost function Send(): SendSide
      reads this
    {
      SendSide(sendBuf, sendLen, needSendLen, sendStat, writeArmed)
    }

    constructor ()
      ensures !readArmed && !writeArmed && recvStat == RECVED && sendStat == SENDED
    {
      recvBuf, sendBuf := seq(DEFAULT_BUFF_LEN, _ => 0), seq(DEFAULT_BUFF_LEN, _ => 0);
      recvLen, needRecvLen, sendLen, needSendLen := 0, 0, 0, 0;
      recvStat, sendStat := RECVED, SENDED;
      readArmed, writeArmed := false, false;
    }

    method AsyncRecvBytes(num: int, callback: bool, registers: bool) returns (ok: bool)
      modifies this
      ensures (Recv(), ok) == AsyncRecv(old(Recv()), num, callback, registers) && Send() == old(Send())
    {
      if !callback || num > DEFAULT_BUFF_LEN || num <= 0 {
        return false;
      }
      recvLen := 0;
      needRecvLen := num;
      recvBuf := Resize(recvBuf, num);
      if registers {
        readArmed := true;
      }
      return registers;
    }

    method AsyncSendBytes(bytes: seq<Byte>, callback: bool, registers: bool) returns (ok: bool)
      modifies this
      ensures (Send(), ok) == AsyncSend(old(Send()), bytes, callback, registers) && Recv() == old(Recv())
    {
      if !callback || |bytes| > DEFAULT_BUFF_LEN {
        return false;
      }
      sendLen := 0;
      needSendLen := |bytes|;
      sendBuf := bytes;
      if registers {
        writeArmed := true;
      }
      return registers;
    }

    method RecvOnePack(o: Arrival) returns (c: Completion)
      requires Recv().Accepts(o)
      modifies this
      ensures (Recv(), c) == OnRead(old(Recv()), o) && Send() == old(Send())
    {
      readArmed := false;
      match o {
        case PeerClosed =>
          recvStat := RECVERR;
          return Done(recvStat);
        case RecvBroken =>
          recvStat := RECVERR;
          return Done(recvStat);
        case RecvAgain =>
          readArmed := true;
          recvStat := RECVING;
          return Nothing;
        case Chunk(bs) =>
          recvBuf := recvBuf[..recvLen] + bs + recvBuf[recvLen + |bs|..];
          if |bs| < needRecvLen {
            recvLen := recvLen + |bs|;
            needRecvLen := needRecvLen - |bs|;
            readArmed := true;
            recvStat := RECVING;
            return Nothing;
          }
          recvStat := RECVED;
          return Done(recvStat);
      }
    }

    method SendOnePack(o: Departure) returns (bytes: seq<Byte>, c: Completion)
      requires Send().Accepts(o)
      modifies this
      ensures (Send(), bytes, c) == OnWrite(old(Send()), o) && Recv() == old(Recv())
    {
      writeArmed := false;
      match o {
        case SendAgain =>
          sendStat := SENDING;
          writeArmed := true;
          return [], Nothing;
        case SendBroken =>
          sendStat := SENDERR;
          return [], Done(sendStat);
        case SentNothing =>
          sendStat := SENDERR;
          return [], Done(sendStat);
        case Sent(n) =>
          bytes := sendBuf[sendLen..sendLen + n];
          if n < needSendLen {
            sendLen := sendLen + n;
            needSendLen := needSendLen - n;
            sendStat := SENDING;
            writeArmed := true;
            return bytes, Nothing;
          }
          sendStat := SENDED;
          return bytes, Done(sendStat);
      }
    }
  }
}
