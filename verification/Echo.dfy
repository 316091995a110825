/** The echo server's connection: read a 4-byte length, read that many bytes,
    send both back, start over. The input is any byte string whatsoever and the
    kernel cuts reads and writes as it likes; what the client gets back is
    compared with a plain function of the whole input.
  */
module Echo {
  import opened StreamIo

  // ---- the length prefix: a native (little-endian) 32-bit int --------------

  const TWO31: int := 0x8000_0000
  const TWO32: int := 0x1_0000_0000

  function Encode(n: int): (r: seq<Byte>)
    requires -TWO31 <= n < TWO31
    ensures |r| == 4
  {
    var u := if n < 0 then n + TWO32 else n;
    [u % 256, u / 256 % 256, u / 65536 % 256, u / 16777216 % 256]
  }

  function Decode(s: seq<Byte>): (n: int)
    requires |s| == 4
    ensures -TWO31 <= n < TWO31
  {
    var u: int := s[0] as int + 256 * (s[1] as int) + 65536 * (s[2] as int) + 16777216 * (s[3] as int);
    if u >= TWO31 then u - TWO32 else u
  }

  /** The four bytes are the digits to base 256 of the length, modulo 2^32, lowest
      first; a length below 256 sits in the first byte. */
  lemma EncodeIsLittleEndian(n: int)
    requires -TWO31 <= n < TWO31
    ensures var r := Encode(n);
            r[0] as int + 256 * (r[1] as int) + 65536 * (r[2] as int) + 16777216 * (r[3] as int)
            == if n < 0 then n + TWO32 else n
    ensures 0 <= n < 256 ==> Encode(n) == [n, 0, 0, 0]
  {
    var u := if n < 0 then n + TWO32 else n;
    assert u / 16777216 % 256 == u / 16777216;
    assert u / 65536 == 256 * (u / 16777216) + u / 65536 % 256;
    assert u / 256 == 256 * (u / 65536) + u / 256 % 256;
  }

  lemma DecodeUndoesEncode(n: int)
    requires -TWO31 <= n < TWO31
    ensures Decode(Encode(n)) == n
  {
    var u := if n < 0 then n + TWO32 else n;
    assert u / 16777216 % 256 == u / 16777216;
    assert u / 65536 == 256 * (u / 16777216) + u / 65536 % 256;
    assert u / 256 == 256 * (u / 65536) + u / 256 % 256;
  }

  lemma Digit(low: int, high: int)
    requires 0 <= low < 256
    ensures (low + 256 * high) / 256 == high && (low + 256 * high) % 256 == low
  {
  }

  lemma EncodeUndoesDecode(s: seq<Byte>)
    requires |s| == 4
    ensures Encode(Decode(s)) == s
  {
    var h2: int := s[2] as int + 256 * (s[3] as int);
    var h1: int := s[1] as int + 256 * h2;
    var u: int := s[0] as int + 256 * h1;
    Digit(s[0], h1);
    Digit(s[1], h2);
    Digit(s[2], s[3]);
    assert u / 65536 == h2 && u / 16777216 == s[3];
  }

  // ---- the connection ------------------------------------------------------

  datatype Phase = RecvHead | RecvBody

  datatype Conn = Conn(phase: Phase, recv: RecvSide, send: SendSide, destroyed: bool)

  const HEAD: int := 4

  // The connection always passes its callbacks, and the reactor is taken to
  // accept its handlers: hence `true, true` in the calls below.

  function Start(c: Conn): Conn {
    var (recv, ok) := AsyncRecv(c.recv, HEAD, true, true);
    c.(phase := RecvHead, recv := recv, destroyed := c.destroyed || !ok)
  }

  /** The result of the asyncRecvBytes and asyncSendBytes calls made here is
      ignored by the program. */
  function OnRecvComplete(c: Conn, stat: Stat): Conn
    requires |c.recv.buf| < TWO31
  {
    if stat == RECVERR then c.(destroyed := true)
    else if c.phase == RecvHead then
      if |c.recv.buf| < HEAD then c.(recv := AsyncRecv(c.recv, HEAD, true, true).0) else
        var bodyLen := Decode(c.recv.buf[..HEAD]);
        if bodyLen > 1024 then c.(recv := AsyncRecv(c.recv, HEAD, true, true).0)
        else c.(recv := AsyncRecv(c.recv, bodyLen, true, true).0, phase := RecvBody)
    else
      c.(send := AsyncSend(c.send, Encode(|c.recv.buf|) + c.recv.buf, true, true).0)
  }

  function OnSendComplete(c: Conn, stat: Stat): Conn {
    if stat == SENDERR then c.(destroyed := true) else Start(c)
  }

  /** What the connection asks of its stream when a receive completes: nothing more
      after an error; another length after one that is short or too large; the
      body after a length, which the stream refuses for 0 or less; and after a
      body, to send it back with its length, which the stream refuses if both
      together exceed its buffer. */
  lemma RecvCompleteCases(c: Conn, stat: Stat)
    requires |c.recv.buf| < TWO31
    ensures var e := OnRecvComplete(c, stat); var buf := c.recv.buf;
            if stat == RECVERR then e == c.(destroyed := true)
            else if c.phase == RecvHead then
              var n := if |buf| < HEAD then 1025 else Decode(buf[..HEAD]);
              && e == c.(recv := e.recv, phase := if n > 1024 then RecvHead else RecvBody)
              && (if n > 1024 then Receiving(e.recv, HEAD, [])
                  else if n <= 0 then e.recv == c.recv else Receiving(e.recv, n, []))
            else
              && e == c.(send := e.send)
              && if |buf| <= 1020 then Sending(e.send, Encode(|buf|) + buf) else e.send == c.send
  {
    RecvStarts(c.recv, HEAD, true, true);
    if |c.recv.buf| >= HEAD {
      RecvStarts(c.recv, Decode(c.recv.buf[..HEAD]), true, true);
    }
    SendStarts(c.send, Encode(|c.recv.buf|) + c.recv.buf, true, true);
  }

  /** Starting, or a send that completes, leads to reading the next length. */
  lemma SendCompleteCases(c: Conn, stat: Stat)
    ensures var e := Start(c); e == c.(recv := e.recv, phase := RecvHead) && Receiving(e.recv, HEAD, [])
    ensures OnSendComplete(c, stat) == if stat == SENDERR then c.(destroyed := true) else Start(c)
  {
    RecvStarts(c.recv, HEAD, true, true);
  }

  // ---- client, kernel and connection together ------------------------------

  datatype System = System(
    input: seq<Byte>,     // everything the client will ever send
    pos: nat,             // how much of it has been received
    output: seq<Byte>,    // what has left towards the client
    conn: Conn)

  datatype Event =
    | Arrive(k: nat)          // recv returns the next k bytes
    | RecvTrouble(why: Arrival) // recv fails, is to be retried, or reports the end
    | Leave(k: nat)           // send takes k bytes
    | SendTrouble(reason: Departure)

  predicate Enabled(s: System, ev: Event) {
    && !s.conn.destroyed && s.pos <= |s.input| && |s.conn.recv.buf| < TWO31
    && match ev
       case Arrive(k) => s.pos + k <= |s.input| && s.conn.recv.Accepts(Chunk(s.input[s.pos..s.pos + k]))
       case RecvTrouble(o) => !o.Chunk? && s.conn.recv.Accepts(o)
       case Leave(k) => s.conn.send.Accepts(Sent(k))
       case SendTrouble(o) => !o.Sent? && s.conn.send.Accepts(o)
  }

  function Received(s: System, o: Arrival): System
    requires s.conn.recv.Accepts(o) && |s.conn.recv.buf| < TWO31
  {
    var (recv, c) := OnRead(s.conn.recv, o);
    var conn := s.conn.(recv := recv);
    s.(conn := if c.Done? then OnRecvComplete(conn, c.stat) else conn)
  }

  function Departed(s: System, o: Departure): System
    requires s.conn.send.Accepts(o)
  {
    var (send, bytes, c) := OnWrite(s.conn.send, o);
    var conn := s.conn.(send := send);
    s.(output := s.output + bytes, conn := if c.Done? then OnSendComplete(conn, c.stat) else conn)
  }

  function Step(s: System, ev: Event): System
    requires Enabled(s, ev)
  {
    match ev
    case Arrive(k) => Received(s, Chunk(s.input[s.pos..s.pos + k])).(pos := s.pos + k)
    case RecvTrouble(o) => Received(s, o)
    case Leave(k) => Departed(s, Sent(k))
    case SendTrouble(o) => Departed(s, o)
  }

  ghost predicate Init(s: System) {
    && s.pos == 0 && s.output == [] && !s.conn.recv.armed && !s.conn.send.armed && !s.conn.destroyed
  }

  ghost predicate Runnable(s: System, evs: seq<Event>)
    decreases |evs|
  {
    evs == [] || (Enabled(s, evs[0]) && Runnable(Step(s, evs[0]), evs[1..]))
  }

  ghost function Exec(s: System, evs: seq<Event>): System
    requires Runnable(s, evs)
    decreases |evs|
  {
    if evs == [] then s else Exec(Step(s, evs[0]), evs[1..])
  }

  // ---- the reference: what comes back for a given input --------------------

  /** Complete frames with bodies of 1..1020 bytes come back as they are. A
      length above 1024 is skipped and the next 4 bytes are read as a length; a
      length of 0 or less, or of 1021..1024, silences the connection. */
  function EchoOf(x: seq<Byte>): seq<Byte>
    decreases |x|
  {
    if |x| < HEAD then []
    else
      var n := Decode(x[..HEAD]);
      if n > 1024 then EchoOf(x[HEAD..])
      else if n <= 0 || n > 1020 || |x| < HEAD + n then []
      else x[..HEAD + n] + EchoOf(x[HEAD + n..])
  }

  /** The same from the point where the length `n` has been read as `head`. */
  function BodyEcho(head: seq<Byte>, n: int, x: seq<Byte>): seq<Byte>
    requires 1 <= n
  {
    if n > 1020 || |x| < n then [] else head + x[..n] + EchoOf(x[n..])
  }

  lemma HeadThenBody(x: seq<Byte>)
    requires |x| >= HEAD
    ensures var n := Decode(x[..HEAD]);
            EchoOf(x) == if n > 1024 then EchoOf(x[HEAD..]) else if n <= 0 then [] else BodyEcho(x[..HEAD], n, x[HEAD..])
  {
    var n := Decode(x[..HEAD]);
    if 1 <= n <= 1020 && |x| >= HEAD + n {
      assert x[..HEAD + n] == x[..HEAD] + x[HEAD..][..n];
      assert x[HEAD + n..] == x[HEAD..][n..];
    }
  }

  // ---- invariant -----------------------------------------------------------

  /** What has left, followed by `rest`, is the reference. */
  ghost predicate Owes(input: seq<Byte>, output: seq<Byte>, rest: seq<Byte>) {
    output + rest == EchoOf(input)
  }

  /** The debt when a length begins at `start`. */
  ghost predicate OwesHead(input: seq<Byte>, output: seq<Byte>, start: int) {
    0 <= start <= |input| && Owes(input, output, EchoOf(input[start..]))
  }

  /** The debt when a body of `n` bytes begins at `start`. */
  ghost predicate OwesBody(input: seq<Byte>, output: seq<Byte>, n: int, start: int) {
    && HEAD <= start <= |input| && 1 <= n && Decode(input[start - HEAD..start]) == n
    && Owes(input, output, BodyEcho(input[start - HEAD..start], n, input[start..]))
  }

  /** `got` is what was received last. */
  ghost predicate Tail(s: System, got: seq<Byte>) {
    |got| <= s.pos <= |s.input| && s.input[s.pos - |got|..s.pos] == got
  }

  /** Reading a length: `got` of its bytes have come. */
  ghost predicate Heading(s: System, got: seq<Byte>) {
    && s.conn.phase == RecvHead && !s.conn.send.armed && Receiving(s.conn.recv, HEAD, got)
    && Tail(s, got) && |s.output| + |got| <= s.pos && OwesHead(s.input, s.output, s.pos - |got|)
  }

  /** Reading a body of `n` bytes: `got` of them have come. */
  ghost predicate Bodying(s: System, n: int, got: seq<Byte>) {
    && s.conn.phase == RecvBody && !s.conn.send.armed && 1 <= n <= 1024 && Receiving(s.conn.recv, n, got)
    && Tail(s, got) && |s.output| + HEAD + |got| <= s.pos && OwesBody(s.input, s.output, n, s.pos - |got|)
  }

  ghost predicate Echoing(s: System, left: seq<Byte>) {
    && !s.conn.recv.armed && |s.conn.recv.buf| <= 1024 && left != [] && Sending(s.conn.send, left)
    && |s.output| + |left| <= s.pos <= |s.input|
    && Owes(s.input, s.output, left + EchoOf(s.input[s.pos..]))
  }

  /** Neither reading nor writing: nothing more will ever leave. */
  ghost predicate Silent(s: System) {
    !s.conn.recv.armed && !s.conn.send.armed && |s.output| <= s.pos <= |s.input| && Owes(s.input, s.output, [])
  }

  ghost predicate Gone(s: System) {
    s.conn.destroyed && |s.output| <= s.pos <= |s.input| && s.output <= EchoOf(s.input)
  }

  ghost function Got(s: System): seq<Byte> {
    var r := s.conn.recv;
    if 0 <= r.len <= |r.buf| then r.buf[..r.len] else []
  }

  ghost function Left(s: System): seq<Byte> {
    var r := s.conn.send;
    if 0 <= r.len <= |r.buf| then r.buf[r.len..] else []
  }

  ghost predicate Live(e: System) {
    !e.conn.destroyed && (Heading(e, Got(e)) || Bodying(e, |e.conn.recv.buf|, Got(e)) || Echoing(e, Left(e)) || Silent(e))
  }

  ghost predicate Inv(s: System) {
    Gone(s) || Live(s)
  }

  lemma TailGrows(s: System, e: System, got: seq<Byte>, k: nat)
    requires Tail(s, got) && e.input == s.input && e.pos == s.pos + k <= |s.input|
    ensures var bs := s.input[s.pos..s.pos + k];
            Tail(e, got + bs) && e.pos - |got + bs| == s.pos - |got| && s.input[s.pos - |got|..s.pos + k] == got + bs
  {
  }

  /** A read that does not complete only adds to what was received. */
  lemma ReceptionGoesOn(s: System, n: int, got: seq<Byte>, k: nat)
    requires Enabled(s, Arrive(k)) && Receiving(s.conn.recv, n, got) && |got| + k < n
    ensures var e := Step(s, Arrive(k));
            && e == s.(pos := s.pos + k, conn := s.conn.(recv := e.conn.recv))
            && Receiving(e.conn.recv, n, got + s.input[s.pos..s.pos + k])
  {
    ReadAdvances(s.conn.recv, n, got, Chunk(s.input[s.pos..s.pos + k]));
  }

  lemma HeadGrows(s: System, e: System, got: seq<Byte>, k: nat)
    requires Heading(s, got) && s.pos + k <= |s.input| && |got| + k < HEAD
    requires e == s.(pos := s.pos + k, conn := s.conn.(recv := e.conn.recv))
    requires Receiving(e.conn.recv, HEAD, got + s.input[s.pos..s.pos + k])
    ensures Heading(e, got + s.input[s.pos..s.pos + k])
  {
    TailGrows(s, e, got, k);
  }

  lemma BodyGrows(s: System, e: System, n: int, got: seq<Byte>, k: nat)
    requires Bodying(s, n, got) && s.pos + k <= |s.input| && |got| + k < n
    requires e == s.(pos := s.pos + k, conn := s.conn.(recv := e.conn.recv))
    requires Receiving(e.conn.recv, n, got + s.input[s.pos..s.pos + k])
    ensures Bodying(e, n, got + s.input[s.pos..s.pos + k])
  {
    hide Decode, EchoOf, BodyEcho;
    TailGrows(s, e, got, k);
  }

  /** What the last byte of a length leads to. */
  lemma LengthIsRead(s: System, got: seq<Byte>, k: nat, head: seq<Byte>)
    requires Enabled(s, Arrive(k)) && s.conn.phase == RecvHead && Receiving(s.conn.recv, HEAD, got) && |got| + k == HEAD
    requires head == got + s.input[s.pos..s.pos + k]
    ensures var e := Step(s, Arrive(k)); var n := Decode(head); var recv := e.conn.recv;
            if n > 1024 then Receiving(recv, HEAD, []) && e == s.(pos := s.pos + k, conn := s.conn.(recv := recv))
            else
              && e == s.(pos := s.pos + k, conn := s.conn.(recv := recv, phase := RecvBody))
              && if n <= 0 then !recv.armed else Receiving(recv, n, [])
  {
    ReadAdvances(s.conn.recv, HEAD, got, Chunk(s.input[s.pos..s.pos + k]));
    var recv := OnRead(s.conn.recv, Chunk(s.input[s.pos..s.pos + k])).0;
    assert recv.buf[..HEAD] == head;
    RecvStarts(recv, HEAD, true, true);
    RecvStarts(recv, Decode(head), true, true);
  }

  /** How the debt changes when a length has been read. */
  lemma HeadIsPaid(input: seq<Byte>, output: seq<Byte>, start: int)
    requires OwesHead(input, output, start) && start + HEAD <= |input|
    ensures var n := Decode(input[start..start + HEAD]);
            if n > 1024 then OwesHead(input, output, start + HEAD)
            else if n <= 0 then Owes(input, output, [])
            else OwesBody(input, output, n, start + HEAD)
  {
    var x := input[start..];
    HeadThenBody(x);
    assert x[..HEAD] == input[start..start + HEAD] && x[HEAD..] == input[start + HEAD..];
  }

  lemma HeadCompletes(s: System, e: System, got: seq<Byte>, k: nat)
    requires Heading(s, got) && s.pos + k <= |s.input| && |got| + k == HEAD
    requires e.input == s.input && e.output == s.output && e.pos == s.pos + k && e.conn.send == s.conn.send
    requires var n := Decode(got + s.input[s.pos..s.pos + k]); var recv := e.conn.recv;
             if n > 1024 then Receiving(recv, HEAD, []) && e.conn.phase == RecvHead
             else e.conn.phase == RecvBody && if n <= 0 then !recv.armed else Receiving(recv, n, [])
    ensures Heading(e, []) || Silent(e) || Bodying(e, |e.conn.recv.buf|, [])
  {
    hide Decode, EchoOf, BodyEcho;
    TailGrows(s, e, got, k);
    HeadIsPaid(s.input, s.output, s.pos - |got|);
  }

  /** The last bytes of a body: the frame goes to the send side as it came. */
  lemma FrameIsSent(s: System, n: int, got: seq<Byte>, k: nat, head: seq<Byte>)
    requires Enabled(s, Arrive(k)) && s.conn.phase == RecvBody && Receiving(s.conn.recv, n, got) && |got| + k == n
    requires |head| == HEAD && Decode(head) == n
    ensures var e := Step(s, Arrive(k)); var frame := head + (got + s.input[s.pos..s.pos + k]);
            && !e.conn.recv.armed && |e.conn.recv.buf| == n
            && e == s.(pos := s.pos + k, conn := s.conn.(recv := e.conn.recv, send := AsyncSend(s.conn.send, frame, true, true).0))
  {
    ReadAdvances(s.conn.recv, n, got, Chunk(s.input[s.pos..s.pos + k]));
    EncodeUndoesDecode(head);
  }

  /** The debt of a body that is complete: its frame and what follows, or nothing. */
  lemma FrameIsOwed(input: seq<Byte>, output: seq<Byte>, n: int, start: int)
    requires OwesBody(input, output, n, start) && start + n <= |input|
    ensures var frame := input[start - HEAD..start] + input[start..start + n];
            if n <= 1020 then Owes(input, output, frame + EchoOf(input[start + n..])) else Owes(input, output, [])
  {
    var x := input[start..];
    assert x[..n] == input[start..start + n] && x[n..] == input[start + n..];
  }

  lemma BodyCompletes(s: System, e: System, n: int, got: seq<Byte>, k: nat)
    requires Bodying(s, n, got) && s.pos + k <= |s.input| && |got| + k == n
    requires !e.conn.recv.armed && |e.conn.recv.buf| == n
    requires var start := s.pos - |got|; var frame := s.input[start - HEAD..start] + (got + s.input[s.pos..s.pos + k]);
             e == s.(pos := s.pos + k, conn := s.conn.(recv := e.conn.recv, send := AsyncSend(s.conn.send, frame, true, true).0))
    ensures Silent(e) || Echoing(e, Left(e))
  {
    hide Decode, EchoOf, BodyEcho, Encode;
    var start := s.pos - |got|;
    TailGrows(s, e, got, k);
    FrameIsOwed(s.input, s.output, n, start);
    SendStarts(s.conn.send, s.input[start - HEAD..start] + (got + s.input[s.pos..s.pos + k]), true, true);
  }

  /** Bytes that leave are bytes no longer owed. */
  lemma DebtShrinks(input: seq<Byte>, output: seq<Byte>, left: seq<Byte>, k: nat, later: seq<Byte>)
    requires Owes(input, output, left + later) && k <= |left|
    ensures Owes(input, output + left[..k], left[k..] + later)
    ensures k == |left| ==> Owes(input, output + left[..k], later)
  {
    assert left == left[..k] + left[k..];
    assert output + (left + later) == output + left[..k] + (left[k..] + later);
    if k == |left| {
      assert left[k..] + later == later;
    }
  }

  lemma EchoShrinks(s: System, left: seq<Byte>, k: nat)
    requires !s.conn.destroyed && Echoing(s, left) && Enabled(s, Leave(k))
    ensures var e := Step(s, Leave(k));
            !e.conn.destroyed && k <= |left| && (Heading(e, []) || Echoing(e, left[k..]))
  {
    WriteAdvances(s.conn.send, left, Sent(k));
    DebtShrinks(s.input, s.output, left, k, EchoOf(s.input[s.pos..]));
    RecvStarts(s.conn.recv, HEAD, true, true);
  }

  /** A failed or retried read: the connection goes down, or nothing happened. */
  lemma ReceptionFails(s: System, n: int, got: seq<Byte>, o: Arrival)
    requires Enabled(s, RecvTrouble(o)) && Receiving(s.conn.recv, n, got)
    ensures var e := Step(s, RecvTrouble(o));
            && e == s.(conn := s.conn.(recv := e.conn.recv, destroyed := e.conn.destroyed))
            && (e.conn.destroyed || Receiving(e.conn.recv, n, got))
  {
    ReadAdvances(s.conn.recv, n, got, o);
  }

  lemma PrefixOwed(s: System, rest: seq<Byte>)
    requires Owes(s.input, s.output, rest)
    ensures s.output <= EchoOf(s.input)
  {
  }

  lemma EchoTrouble(s: System, left: seq<Byte>, o: Departure)
    requires !s.conn.destroyed && Echoing(s, left) && Enabled(s, SendTrouble(o))
    ensures var e := Step(s, SendTrouble(o)); Gone(e) || (Echoing(e, left) && !e.conn.destroyed)
  {
    WriteAdvances(s.conn.send, left, o);
    PrefixOwed(s, left + EchoOf(s.input[s.pos..]));
    assert s.output + [] == s.output;
  }

  lemma HeadArrival(s: System, got: seq<Byte>, k: nat)
    requires !s.conn.destroyed && Heading(s, got) && Enabled(s, Arrive(k))
    ensures Live(Step(s, Arrive(k)))
  {
    var e := Step(s, Arrive(k));
    if |got| + k < HEAD {
      ReceptionGoesOn(s, HEAD, got, k);
      HeadGrows(s, e, got, k);
    } else {
      LengthIsRead(s, got, k, got + s.input[s.pos..s.pos + k]);
      HeadCompletes(s, e, got, k);
    }
  }

  lemma BodyArrival(s: System, n: int, got: seq<Byte>, k: nat)
    requires !s.conn.destroyed && Bodying(s, n, got) && Enabled(s, Arrive(k))
    ensures Live(Step(s, Arrive(k)))
  {
    hide Decode, EchoOf, BodyEcho, Encode;
    var e := Step(s, Arrive(k));
    if |got| + k < n {
      ReceptionGoesOn(s, n, got, k);
      BodyGrows(s, e, n, got, k);
    } else {
      FrameIsSent(s, n, got, k, s.input[s.pos - |got| - HEAD..s.pos - |got|]);
      BodyCompletes(s, e, n, got, k);
    }
  }

  lemma HeadTrouble(s: System, got: seq<Byte>, o: Arrival)
    requires Heading(s, got) && Enabled(s, RecvTrouble(o))
    ensures Gone(Step(s, RecvTrouble(o))) || Live(Step(s, RecvTrouble(o)))
  {
    hide Decode, EchoOf;
    ReceptionFails(s, HEAD, got, o);
    PrefixOwed(s, EchoOf(s.input[s.pos - |got|..]));
  }

  /** A retried read of a body leaves it as it was. */
  lemma BodyWaits(s: System, e: System, n: int, got: seq<Byte>)
    requires Bodying(s, n, got) && e == s.(conn := s.conn.(recv := e.conn.recv)) && Receiving(e.conn.recv, n, got)
    ensures Bodying(e, |e.conn.recv.buf|, Got(e))
  {
    hide Decode, EchoOf, BodyEcho;
    assert Got(e) == got;
  }

  /** A connection that goes down while reading a body has sent a prefix. */
  lemma BodyIsLost(s: System, e: System, n: int, got: seq<Byte>)
    requires Bodying(s, n, got) && e.conn.destroyed && e.input == s.input && e.output == s.output && e.pos == s.pos
    ensures Gone(e)
  {
    hide Decode, EchoOf, BodyEcho;
    var start := s.pos - |got|;
    PrefixOwed(s, BodyEcho(s.input[start - HEAD..start], n, s.input[start..]));
  }

  lemma BodyTrouble(s: System, n: int, got: seq<Byte>, o: Arrival)
    requires Bodying(s, n, got) && Enabled(s, RecvTrouble(o))
    ensures Gone(Step(s, RecvTrouble(o))) || Live(Step(s, RecvTrouble(o)))
  {
    hide Decode, EchoOf, BodyEcho, OwesBody;
    var e := Step(s, RecvTrouble(o));
    ReceptionFails(s, n, got, o);
    if e.conn.destroyed {
      BodyIsLost(s, e, n, got);
    } else {
      BodyWaits(s, e, n, got);
    }
  }

  lemma StepKeepsInv(s: System, ev: Event)
    requires Inv(s) && Enabled(s, ev)
    ensures Inv(Step(s, ev)) && Step(s, ev).input == s.input
  {
    match ev
    case Arrive(k) =>
      if Heading(s, Got(s)) {
        HeadArrival(s, Got(s), k);
      } else {
        BodyArrival(s, |s.conn.recv.buf|, Got(s), k);
      }
    case Leave(k) => EchoShrinks(s, Left(s), k);
    case RecvTrouble(o) =>
      if Heading(s, Got(s)) {
        HeadTrouble(s, Got(s), o);
      } else {
        BodyTrouble(s, |s.conn.recv.buf|, Got(s), o);
      }
    case SendTrouble(o) => EchoTrouble(s, Left(s), o);
  }

  lemma {:induction false} RunKeepsInv(s: System, evs: seq<Event>)
    requires Inv(s) && Runnable(s, evs)
    ensures Inv(Exec(s, evs)) && Exec(s, evs).input == s.input
    decreases |evs|
  {
    if evs != [] {
      StepKeepsInv(s, evs[0]);
      RunKeepsInv(Step(s, evs[0]), evs[1..]);
    }
  }

  lemma StartHasInv(s: System)
    requires Init(s)
    ensures Inv(s.(conn := Start(s.conn)))
  {
    RecvStarts(s.conn.recv, HEAD, true, true);
    assert s.input[0..] == s.input && [] + EchoOf(s.input) == EchoOf(s.input);
    assert Heading(s.(conn := Start(s.conn)), []);
  }

  // ---- what follows --------------------------------------------------------

  /** The connection is up, nothing is being sent, and either all input has been
      received or no more is asked for. */
  predicate Quiet(s: System) {
    !s.conn.destroyed && !s.conn.send.armed && (s.pos == |s.input| || !s.conn.recv.armed)
  }

  /** For every input and every chunking, retry and failure: what has left is at
      all times a prefix of the reference, and is all of it whenever the
      connection is quiet. */
  lemma ChunkingIsInvisible(s: System, evs: seq<Event>)
    requires Init(s)
    requires var s0 := s.(conn := Start(s.conn)); Runnable(s0, evs)
    ensures var e := Exec(s.(conn := Start(s.conn)), evs);
            e.output <= EchoOf(s.input) && (Quiet(e) ==> e.output == EchoOf(s.input))
  {
    var s0 := s.(conn := Start(s.conn));
    StartHasInv(s);
    RunKeepsInv(s0, evs);
    var e := Exec(s0, evs);
    QuietIsComplete(e);
  }

  lemma QuietIsComplete(e: System)
    requires Inv(e)
    ensures e.output <= EchoOf(e.input) && (Quiet(e) ==> e.output == EchoOf(e.input))
  {
    if Quiet(e) && Heading(e, Got(e)) {
      assert EchoOf(e.input[e.pos - |Got(e)|..]) == [];
    }
  }

  ghost function Transfers(evs: seq<Event>): nat {
    if evs == [] then 0 else (if evs[0].Arrive? || evs[0].Leave? then 1 else 0) + Transfers(evs[1..])
  }

  ghost predicate Sound(s: System) {
    Inv(s) && |s.output| <= s.pos <= |s.input|
  }

  lemma InvIsSound(s: System)
    requires Inv(s)
    ensures Sound(s)
  {
  }

  lemma TransferDescends(s: System, ev: Event)
    requires Inv(s) && Enabled(s, ev)
    ensures var e := Step(s, ev); var moved := if ev.Arrive? || ev.Leave? then 1 else 0;
            e.pos + |e.output| >= s.pos + |s.output| + moved
  {
  }

  /** A run makes at most twice as many transfers as there are input bytes, and
      a connection that is up and not quiet can always make another: so, unless
      the peer or the network fails, every run that goes on reaches the quiet
      state, where the output is the reference. */
  lemma {:induction false} TransfersAreBounded(s: System, evs: seq<Event>)
    requires Inv(s) && Runnable(s, evs)
    ensures Transfers(evs) <= 2 * |s.input| - s.pos - |s.output|
    ensures var e := Exec(s, evs);
            !e.conn.destroyed && !Quiet(e) ==> Enabled(e, Arrive(1)) || Enabled(e, Leave(1))
    decreases |evs|
  {
    InvIsSound(s);
    if evs != [] {
      StepKeepsInv(s, evs[0]);
      TransferDescends(s, evs[0]);
      TransfersAreBounded(Step(s, evs[0]), evs[1..]);
    }
  }

  /** The environment is free while the connection is up: a side that is armed may
      be given any part of what it asks for, a retry, or a failure. */
  lemma EnvironmentIsFree(s: System, k: nat, o: Arrival, p: Departure)
    requires Inv(s) && !s.conn.destroyed
    ensures s.conn.recv.armed && 1 <= k <= s.conn.recv.need && s.pos + k <= |s.input| ==> Enabled(s, Arrive(k))
    ensures s.conn.recv.armed && !o.Chunk? ==> Enabled(s, RecvTrouble(o))
    ensures s.conn.send.armed && 1 <= k <= s.conn.send.need ==> Enabled(s, Leave(k))
    ensures s.conn.send.armed && !p.Sent? ==> Enabled(s, SendTrouble(p))
  {
    hide OwesHead, OwesBody, Owes, EchoOf;
  }

  // ---- frames --------------------------------------------------------------

  function Frames(bodies: seq<seq<Byte>>): seq<Byte>
    requires forall b <- bodies :: |b| < TWO31
  {
    if bodies == [] then [] else Encode(|bodies[0]|) + bodies[0] + Frames(bodies[1..])
  }

  lemma {:induction false} EchoIsNoLonger(x: seq<Byte>)
    ensures |EchoOf(x)| <= |x|
    decreases |x|
  {
    if |x| >= HEAD {
      var n := Decode(x[..HEAD]);
      if n > 1024 {
        EchoIsNoLonger(x[HEAD..]);
      } else if 1 <= n <= 1020 && |x| >= HEAD + n {
        EchoIsNoLonger(x[HEAD + n..]);
      }
    }
  }

  lemma FirstFrame(b: seq<Byte>, rest: seq<Byte>)
    requires |b| < TWO31
    ensures var x := Encode(|b|) + b + rest;
            if 1 <= |b| <= 1020 then EchoOf(x) == Encode(|b|) + b + EchoOf(rest) else |EchoOf(x)| < |x|
  {
    var x := Encode(|b|) + b + rest;
    assert x[..HEAD] == Encode(|b|);
    DecodeUndoesEncode(|b|);
    if 1 <= |b| <= 1020 {
      assert x[..HEAD + |b|] == Encode(|b|) + b && x[HEAD + |b|..] == rest;
    } else if |b| > 1024 {
      EchoIsNoLonger(x[HEAD..]);
    }
  }

  /** A sequence of frames comes back unchanged exactly when every body has 1 to
      1020 bytes. */
  lemma {:induction false} FramesComeBack(bodies: seq<seq<Byte>>)
    requires forall b <- bodies :: |b| < TWO31
    ensures EchoOf(Frames(bodies)) == Frames(bodies) <==> forall b <- bodies :: 1 <= |b| <= 1020
  {
    if bodies != [] {
      var b, rest := bodies[0], Frames(bodies[1..]);
      assert b in bodies && bodies == [b] + bodies[1..];
      FirstFrame(b, rest);
      FramesComeBack(bodies[1..]);
      if 1 <= |b| <= 1020 {
        var head := Encode(|b|) + b;
        assert (head + EchoOf(rest))[|head|..] == EchoOf(rest) && (head + rest)[|head|..] == rest;
      }
    }
  }

  // ---- the object ----------------------------------------------------------

  class ConcurrentConnection {
    const spStream: Stream
    var stat: Phase
    var destroyed: bool

    ghost function Model(): Conn
      reads this, spStream
    {
      Conn(stat, spStream.Recv(), spStream.Send(), destroyed)
    }

    constructor (spStream: Stream)
      ensures this.spStream == spStream && stat == RecvHead && !destroyed
    {
      this.spStream := spStream;
      stat, destroyed := RecvHead, false;
    }

    method StartReadOrWriteInService()
      modifies this, spStream
      ensures Model() == Start(old(Model()))
    {
      stat := RecvHead;
      var ok := spStream.AsyncRecvBytes(HEAD, true, true);
      destroyed := destroyed || !ok;
    }

    method RecvCompleteCallback(retRecvStat: Stat)
      requires |spStream.recvBuf| < TWO31
      modifies this, spStream
      ensures Model() == OnRecvComplete(old(Model()), retRecvStat)
    {
      if retRecvStat == RECVERR {
        destroyed := true;
        return;
      }
      var vecBytes := spStream.recvBuf;
      if stat == RecvHead {
        if |vecBytes| < HEAD {
          var _ := spStream.AsyncRecvBytes(HEAD, true, true);
          return;
        }
        var bodyLen := Decode(vecBytes[..HEAD]);
        if bodyLen > 1024 {
          var _ := spStream.AsyncRecvBytes(HEAD, true, true);
          return;
        }
        var _ := spStream.AsyncRecvBytes(bodyLen, true, true);
        stat := RecvBody;
        return;
      }
      var _ := spStream.AsyncSendBytes(Encode(|vecBytes|) + vecBytes, true, true);
    }

    method SendCompleteCallback(retSendStat: Stat)
      modifies this, spStream
      ensures Model() == OnSendComplete(old(Model()), retSendStat)
    {
      if retSendStat == SENDERR {
        destroyed := true;
        return;
      }
      stat := RecvHead;
      var ok := spStream.AsyncRecvBytes(HEAD, true, true);
      destroyed := destroyed || !ok;
    }
  }
}
