/** The RSP client over a socket: receive buffer, acks, out-of-band queue, timeouts. */
module Client {
  import opened Rsp

  datatype Error = Timeout | OsError | ConnectionLost | Protocol

  datatype Outcome<+T> = Ok(value: T) | Err(error: Error)

  datatype Received = Chunk(data: string) | Closed | TimedOut | Failed

  /** A connected TCP socket.  `unread` is everything the peer still delivers on this connection,
      including bytes that have not arrived yet, so `Recv` may time out at any point of it. */
  class Socket {
    var unread: string
    var sent: string

    constructor (unread: string)
      ensures this.unread == unread && sent == ""
    {
      this.unread, sent := unread, "";
    }

    /** Any non-empty chunk of at most `n` bytes, or a timeout, an error, an orderly close. */
    method Recv(n: nat) returns (r: Received)
      requires n > 0
      modifies this`unread
      ensures r.Chunk? ==> 0 < |r.data| <= n && old(unread) == r.data + unread
      ensures !r.Chunk? ==> unread == old(unread)
    {
      if * {
        r := Closed;
      } else if * {
        r := Failed;
      } else if unread == "" {
        r := TimedOut;
      } else if * {
        r := TimedOut;
      } else {
        var k :| 0 < k <= n && k <= |unread|;
        r := Chunk(unread[..k]);
        unread := unread[k..];
      }
    }

    method SendAll(data: string) returns (ok: bool)
      modifies this`sent
      ensures ok ==> sent == old(sent) + data
    {
      if * {
        ok := false;
      } else {
        sent := sent + data;
        ok := true;
      }
    }
  }

  /** The acks the client has sent for `n` received packets. */
  function Acks(n: nat): string {
    if n == 0 then "" else Acks(n - 1) + "+"
  }

  lemma OneMoreAck(sent: string, n: nat)
    ensures Acks(0) == "" && sent + Acks(n) + "+" == sent + Acks(n + 1)
  {
  }

  /** What the client writes for commands one after the other: each framed, and the acks sent after it. */
  function Transcript(payloads: seq<string>, acks: seq<nat>): string
    requires |payloads| == |acks|
  {
    if payloads == [] then ""
    else
      var k := |payloads| - 1;
      Transcript(payloads[..k], acks[..k]) + (Frame(payloads[k]) + Acks(acks[k]))
  }

  lemma TranscriptNone(sent: string, s: string)
    ensures Transcript([], []) == "" && sent + "" == sent && AcksOwed(s, [])
  {
  }

  lemma TranscriptMore(start: string, payloads: seq<string>, acks: seq<nat>, k: nat, n: nat)
    requires |acks| == k < |payloads|
    ensures start + Transcript(payloads[..k], acks) + Frame(payloads[k]) + Acks(n)
      == start + Transcript(payloads[..k + 1], acks + [n])
  {
    hide Frame, Acks;
    assert payloads[..k + 1][..k] == payloads[..k] && (acks + [n])[..k] == acks;
  }

  /** `p` and the register number in lower-case hexadecimal. */
  predicate Queries(payload: string, num: nat) {
    payload != "" && payload[0] == 'p' && Text.IsHex(payload[1..]) && Text.PyInt(payload[1..], 16) == Text.Some(num)
  }

  lemma QueryIs(num: nat)
    ensures Queries("p" + Text.ToHex(num), num)
  {
    Text.ToHexDigits(num);
    Text.HexIsDigits(Text.ToHex(num));
    assert ("p" + Text.ToHex(num))[1..] == Text.ToHex(num);
  }

  /** Each ack answers one packet: those queued while that command ran, and its reply. */
  predicate AcksOwed(s: string, acks: seq<nat>) {
    forall i :: 0 <= i < |acks| ==> OwedBy(s, i, acks[i])
  }

  predicate OwedBy(s: string, i: nat, n: nat) {
    var before, after := ParseDialogue(s, i), ParseDialogue(s, i + 1);
    before.Held? && after.Held? && n == |after.oob| - |before.oob| + 1
  }

  lemma OneMoreOwed(s: string, acks: seq<nat>, n: nat)
    requires AcksOwed(s, acks) && ParseDialogue(s, |acks|).Held? && ParseDialogue(s, |acks| + 1).Held?
    requires n == |ParseDialogue(s, |acks| + 1).oob| - |ParseDialogue(s, |acks|).oob| + 1
    ensures AcksOwed(s, acks + [n])
  {
    hide ParseDialogue;
    assert OwedBy(s, |acks|, n);
  }

  lemma DropFirst(a: string, b: string)
    ensures (a + b)[|a|..] == b
  {
  }

  /** One byte read from the stream `s`, with `rest` left. */
  lemma FirstOf(s: string, byte: string, rest: string)
    requires |byte| == 1 && s == byte + rest
    ensures s != "" && byte == [s[0]] && rest == s[1..] && s == [s[0]] + rest
  {
  }

  lemma OneFurther<T>(a: seq<T>, b: seq<T>, x: T)
    ensures a + b + [x] == a + (b + [x])
  {
  }

  lemma AppendAfter<T>(a: seq<T>, b: seq<T>, x: T)
    requires a <= b
    ensures a <= b + [x] && (b + [x])[|a|..] == b[|a|..] + [x]
  {
  }

  lemma GrownBy<T>(a: seq<T>, b: seq<T>, c: seq<T>)
    requires a + b <= c
    ensures c == a + (b + c[|a + b|..])
  {
  }

  lemma NextOf<T>(a: seq<T>, k: nat)
    requires k < |a|
    ensures a[k..][0] == a[k] && a[k..][1..] == a[k + 1..] && a[..k] + [a[k]] == a[..k + 1]
  {
  }

  /** The first `$` of the buffer is just before `start`. */
  predicate Opens(buf: string, start: nat) {
    0 < start <= |buf| && buf[start - 1] == '$' && '$' !in buf[..start - 1]
  }

  /** The packet's payload is `buf[start..end]`. */
  predicate Delimits(buf: string, start: nat, end: nat) {
    Opens(buf, start) && start <= end < |buf| && buf[end] == '#' && '#' !in buf[start..end]
  }

  lemma OpensMore(buf: string, buf': string, start: nat)
    requires buf <= buf' && Opens(buf, start)
    ensures Opens(buf', start)
  {
  }

  lemma DelimitsMore(buf: string, buf': string, start: nat, end: nat)
    requires buf <= buf' && Delimits(buf, start, end)
    ensures Delimits(buf', start, end)
  {
  }

  /** With two more bytes in the buffer the packet is there, whatever else is to be received. */
  lemma Delimited(buf: string, start: nat, end: nat, more: string)
    requires Delimits(buf, start, end) && end + 3 <= |buf|
    ensures ParsePacket(buf + more) == Packet(buf[start..end], buf[end + 3..] + more)
  {
    hide ParsePacket;
    PacketAt(buf, start, end);
    ParseMore(buf, more);
  }

  /** There is an answer to every command, and it can be framed. */
  predicate Answerable(payloads: seq<string>, answers: seq<string>) {
    |payloads| <= |answers| && forall a <- answers :: '#' !in a
  }

  lemma NoneUsed()
    ensures Used([]) == 0
  {
  }

  lemma OneMoreEnd(ends: seq<End>, end: End, answers: seq<string>)
    ensures Used(ends + [end]) == Used(ends) + if end.BeforeAck? then 0 else 1
    ensures Used(ends) < |answers| ==> answers[Used(ends)..][1..] == answers[Used(ends) + 1..]
    ensures forall i :: 0 <= i <= |ends| ==> (ends + [end])[..i] == ends[..i]
  {
    assert (ends + [end])[..|ends|] == ends;
  }

  class GDBStub {
    var sock: Socket?
    var recvBuf: string
    var pending: seq<string>

    ghost predicate Valid()
      reads this
    {
      sock == null ==> recvBuf == ""
    }

    /** Everything not yet parsed: the buffered bytes and the bytes still to be received. */
    ghost function Stream(): string
      reads this, sock
    {
      if sock == null then "" else recvBuf + sock.unread
    }

    constructor ()
      ensures Valid() && sock == null && pending == []
    {
      sock, recvBuf, pending := null, "", [];
    }

    method Connect(socket: Socket)
      requires Valid()
      modifies this
      ensures Valid() && pending == old(pending)
      ensures old(sock) == null ==> sock == socket && recvBuf == ""
      ensures old(sock) != null ==> sock == old(sock) && recvBuf == old(recvBuf)
    {
      if sock == null {
        sock, recvBuf := socket, "";
      }
    }

    /** Closing forgets the unparsed bytes but keeps the queued out-of-band packets. */
    method Close()
      requires Valid()
      modifies this
      ensures Valid() && sock == null && pending == old(pending)
    {
      if sock != null {
        sock, recvBuf := null, "";
      }
    }

    /** Read `n` bytes.  A failed read loses only bytes it had already taken, so none when n == 1. */
    method ReadExact(n: nat) returns (r: Outcome<string>)
      requires Valid()
      modifies this, sock
      ensures Valid() && pending == old(pending)
      ensures r.Ok? ==> |r.value| == n && (n > 0 ==> sock == old(sock))
      ensures r.Ok? ==> old(Stream()) == r.value + Stream()
      ensures r.Err? && r.error == ConnectionLost ==> sock == null
      ensures r.Err? && r.error != ConnectionLost ==> sock == old(sock) && sock != null
      ensures r.Err? && r.error != ConnectionLost ==>
        var lost := |old(Stream())| - |Stream()|;
        0 <= lost < n && Stream() == old(Stream())[lost..]
      ensures r.Err? ==> r.error != Protocol
      ensures old(sock) != null ==> old(sock).sent == old(sock.sent)
    {
      var out := "";
      if recvBuf != "" {
        var take := if n < |recvBuf| then n else |recvBuf|;
        out, recvBuf := recvBuf[..take], recvBuf[take..];
        assert old(recvBuf) == out + recvBuf;
      }
      assert old(Stream()) == out + Stream() by {
        Text.Associate(out, recvBuf, if sock == null then "" else sock.unread);
      }
      if |out| >= n {
        return Ok(out);
      }
      if sock == null {
        return Err(ConnectionLost);
      }
      var s := sock;
      while |out| < n
        invariant |out| <= n && sock == s == old(sock) && recvBuf == "" && pending == old(pending)
        invariant old(Stream()) == out + s.unread && s.sent == old(sock.sent)
        decreases n - |out|
      {
        var got := s.Recv(n - |out|);
        match got
        case Chunk(data) =>
          Text.Associate(out, data, s.unread);
          out := out + data;
        case Closed =>
          Close();
          return Err(ConnectionLost);
        case TimedOut =>
          DropFirst(out, Stream());
          return Err(Timeout);
        case Failed =>
          DropFirst(out, Stream());
          return Err(OsError);
      }
      r := Ok(out);
    }

    /** One `recv(4096)` into the buffer. */
    method Fill() returns (r: Outcome<()>)
      requires Valid() && sock != null
      modifies this, sock
      ensures Valid() && pending == old(pending) && old(sock).sent == old(sock.sent)
      ensures r.Err? && r.error == ConnectionLost ==> sock == null
      ensures r.Err? ==> r.error != Protocol
      ensures r.Ok? || r.error != ConnectionLost ==> sock == old(sock) && Stream() == old(Stream())
      ensures r.Ok? ==> recvBuf != old(recvBuf) && old(recvBuf) <= recvBuf && |sock.unread| < old(|sock.unread|)
    {
      var got := sock.Recv(4096);
      match got
      case Chunk(data) =>
        assert recvBuf + old(sock.unread) == recvBuf + data + sock.unread;
        recvBuf := recvBuf + data;
        r := Ok(());
      case Closed =>
        Close();
        r := Err(ConnectionLost);
      case TimedOut =>
        r := Err(Timeout);
      case Failed =>
        r := Err(OsError);
    }

    /** Receive until the buffer holds `c` at or after `from`. */
    method FillUntil(c: char, from: nat) returns (r: Outcome<nat>)
      requires Valid() && sock != null && from <= |recvBuf|
      modifies this, sock
      ensures Valid() && pending == old(pending) && old(sock).sent == old(sock.sent)
      ensures r.Err? ==> r.error != Protocol
      ensures r.Err? && r.error == ConnectionLost ==> sock == null
      ensures r.Ok? || r.error != ConnectionLost ==> sock == old(sock) && Stream() == old(Stream())
      ensures r.Ok? ==> old(recvBuf) <= recvBuf && from <= r.value < |recvBuf|
      ensures r.Ok? ==> recvBuf[r.value] == c && c !in recvBuf[from..r.value]
    {
      hide Text.FindChar;
      while c !in recvBuf[from..]
        invariant Valid() && sock == old(sock) && sock != null && pending == old(pending)
        invariant Stream() == old(Stream()) && sock.sent == old(sock.sent) && old(recvBuf) <= recvBuf
        decreases |sock.unread|
      {
        var f := Fill();
        if f.Err? {
          return Err(f.error);
        }
      }
      var i := Text.FindChar(recvBuf, c, from);
      assert i < |recvBuf| by {
        assert recvBuf[from..|recvBuf|] == recvBuf[from..];
      }
      r := Ok(i);
    }

    /** Whatever the chunking, a returned payload is that of one parse of the whole stream; a call
        that times out at any point leaves the stream exactly as it was. */
    method ReadPacketFromWire() returns (r: Outcome<string>)
      requires Valid()
      modifies this, sock
      ensures Valid() && pending == old(pending)
      ensures r.Ok? ==> sock == old(sock) && sock != null && sock.sent == old(sock.sent) + "+"
      ensures r.Ok? ==> ParsePacket(old(Stream())) == Packet(r.value, Stream())
      ensures r.Err? && r.error == ConnectionLost ==> sock == null
      ensures r.Err? ==> r.error != Protocol
      ensures r.Err? && r.error != ConnectionLost ==> sock == old(sock) && sock != null
      ensures r.Err? && r.error != ConnectionLost ==> sock.sent == old(sock.sent) && Stream() == old(Stream())
    {
      hide ParsePacket;
      if sock == null {
        return Err(ConnectionLost);
      }
      var dollar := FillUntil('$', 0);
      if dollar.Err? {
        return Err(dollar.error);
      }
      var start := dollar.value + 1;
      ghost var found := recvBuf;
      assert Opens(found, start) by {
        assert found[..start - 1] == found[0..start - 1];
      }
      hide Opens;
      var hash := FillUntil('#', start);
      if hash.Err? {
        return Err(hash.error);
      }
      var end := hash.value;
      OpensMore(found, recvBuf, start);
      assert Delimits(recvBuf, start, end);
      hide Delimits;
      while |recvBuf| < end + 3
        invariant Valid() && sock == old(sock) && sock != null && pending == old(pending)
        invariant Stream() == old(Stream()) && sock.sent == old(sock.sent)
        invariant start <= end && Delimits(recvBuf, start, end)
        decreases |sock.unread|
      {
        ghost var buf := recvBuf;
        var f := Fill();
        if f.Err? {
          return Err(f.error);
        }
        DelimitsMore(buf, recvBuf, start, end);
      }
      Delimited(recvBuf, start, end, sock.unread);
      var payload := recvBuf[start..end];
      recvBuf := recvBuf[end + 3..];
      var ok := sock.SendAll("+");
      if !ok {
        Close();
        return Err(ConnectionLost);
      }
      r := Ok(payload);
    }

    /** The `$` just read starts a packet in front of the ack: push it back, parse, queue. */
    method QueueOutOfBand() returns (r: Outcome<()>)
      requires Valid() && sock != null
      modifies this, sock
      ensures Valid()
      ensures r.Ok? ==> sock == old(sock) && sock.sent == old(sock.sent) + "+" && |pending| > 0
      ensures r.Ok? ==> pending == old(pending) + [pending[|pending| - 1]]
      ensures r.Ok? ==> ParsePacket("$" + old(Stream())) == Packet(pending[|pending| - 1], Stream())
      ensures r.Err? ==> pending == old(pending) && r.error != Protocol
      ensures r.Err? && r.error == ConnectionLost ==> sock == null
      ensures r.Err? && r.error != ConnectionLost ==>
        sock == old(sock) && sock.sent == old(sock.sent) && Stream() == "$" + old(Stream())
    {
      hide ParsePacket;
      recvBuf := "$" + recvBuf;
      assert Stream() == "$" + old(Stream());
      var packet := ReadPacketFromWire();
      if packet.Err? {
        return Err(packet.error);
      }
      pending := pending + [packet.value];
      r := Ok(());
    }

    /** One round of waiting for an ack: the ack is read, or the packet in front of it is queued.  A timeout
        leaves everything as it was. */
    method AckOrQueue() returns (r: Outcome<bool>)
      requires Valid() && sock != null
      modifies this, sock
      ensures Valid() && (r.Err? && r.error == ConnectionLost ==> sock == null && pending == old(pending))
      ensures r.Ok? || r.error != ConnectionLost ==> sock == old(sock)
      ensures r == Ok(false) ==>
        && |pending| > 0 && pending == old(pending) + [pending[|pending| - 1]] && sock.sent == old(sock.sent) + "+"
        && ParseAck(old(Stream())) == ParseAck(Stream()).Before(pending[|pending| - 1])
        && |Stream()| < |old(Stream())|
      ensures r == Ok(true) || (r.Err? && r.error != ConnectionLost) ==>
        pending == old(pending) && sock.sent == old(sock.sent)
      ensures r == Ok(true) ==> ParseAck(old(Stream())) == AckParse([], Acked, Stream())
      ensures r.Err? && (r.error == Timeout || r.error == OsError) ==> Stream() == old(Stream())
      ensures r.Err? && r.error == Protocol ==>
        ParseAck(old(Stream())) == AckParse([], Nak, Stream())
        || ParseAck(old(Stream())) == AckParse([], Unexpected, Stream())
    {
      hide ParsePacket, ParseAck, Stream;
      ghost var s := Stream();
      assert s[0..] == s;
      var ack := ReadExact(1);
      if ack.Err? {
        return Err(ack.error);
      }
      FirstOf(s, ack.value, Stream());
      ParseAckStep(s);
      if ack.value == "+" {
        return Ok(true);
      }
      if ack.value != "$" {
        return Err(Protocol);
      }
      var packet := QueueOutOfBand();
      r := if packet.Err? then Err(packet.error) else Ok(false);
    }

    /** Wait for the ack of the packet just sent; packets in front of it go to the queue.  The parse
        of the stream from here is always the newly queued packets followed by the parse of what is
        left, so a retry after a timeout continues where this call stopped. */
    method ConsumeAck() returns (r: Outcome<()>)
      requires Valid()
      modifies this, sock
      ensures Valid() && old(pending) <= pending
      ensures r.Err? && r.error == ConnectionLost ==> sock == null
      ensures r.Ok? || r.error != ConnectionLost ==> sock == old(sock) && sock != null
      ensures r.Ok? || r.error != ConnectionLost ==>
        sock.sent == old(sock.sent) + Acks(|pending| - |old(pending)|)
      ensures r.Ok? ==> ParseAck(old(Stream())) == AckParse(pending[|old(pending)|..], Acked, Stream())
      ensures r.Err? && (r.error == Timeout || r.error == OsError) ==>
        ParseAck(old(Stream())) == ParseAck(Stream()).After(pending[|old(pending)|..])
      ensures r.Err? && r.error == Protocol ==>
        ParseAck(old(Stream())) == AckParse(pending[|old(pending)|..], Nak, Stream())
        || ParseAck(old(Stream())) == AckParse(pending[|old(pending)|..], Unexpected, Stream())
    {
      hide ParsePacket, ParseAck, Acks, AckParse.After, AckParse.Before, Stream;
      if sock == null {
        return Err(ConnectionLost);
      }
      ghost var queued: seq<string> := [];
      OneMoreAck("", 0);
      AfterBefore(ParseAck(Stream()), [], "");
      while true
        invariant Valid() && sock == old(sock) && sock != null
        invariant pending == old(pending) + queued
        invariant sock.sent == old(sock.sent) + Acks(|queued|)
        invariant ParseAck(old(Stream())) == ParseAck(Stream()).After(queued)
        decreases |Stream()|
      {
        assert pending[|old(pending)|..] == queued;
        var ack := AckOrQueue();
        AfterNone(Acked, Stream(), queued);
        AfterNone(Nak, Stream(), queued);
        AfterNone(Unexpected, Stream(), queued);
        if ack.Err? {
          return Err(ack.error);
        }
        if ack.value {
          return Ok(());
        }
        ghost var last := pending[|pending| - 1];
        AfterBefore(ParseAck(Stream()), queued, last);
        OneMoreAck(old(sock.sent), |queued|);
        OneFurther(old(pending), queued, last);
        queued := queued + [last];
      }
    }

    method SendPacket(payload: string) returns (r: Outcome<()>)
      requires Valid()
      modifies this, sock
      ensures Valid() && old(pending) <= pending
      ensures r.Err? && r.error == ConnectionLost ==> sock == null
      ensures r.Ok? || r.error != ConnectionLost ==> sock == old(sock) && sock != null
      ensures r.Ok? || r.error != ConnectionLost ==>
        sock.sent == old(sock.sent) + Frame(payload) + Acks(|pending| - |old(pending)|)
      ensures r.Ok? ==> ParseAck(old(Stream())) == AckParse(pending[|old(pending)|..], Acked, Stream())
      ensures r.Err? && (r.error == Timeout || r.error == OsError) ==>
        ParseAck(old(Stream())) == ParseAck(Stream()).After(pending[|old(pending)|..])
      ensures r.Err? && r.error != ConnectionLost ==>
        GivenUp(old(Stream()), pending[|old(pending)|..], Stream())
    {
      hide ParseAck, Frame, ParsePacket, Acks;
      if sock == null {
        return Err(ConnectionLost);
      }
      var ok := sock.SendAll(Frame(payload));
      if !ok {
        Close();
        return Err(ConnectionLost);
      }
      r := ConsumeAck();
    }

    /** A completed command returns the reply of its own exchange, queues every packet that came
        before the ack, and leaves the stream just behind its reply.  A command that fails on a connection
        that lasts leaves the stream in front of its ack, or behind its ack and in front of its reply. */
    method Cmd(payload: string) returns (r: Outcome<string>)
      requires Valid()
      modifies this, sock
      ensures Valid() && old(pending) <= pending
      ensures r.Ok? ==> sock == old(sock) && sock != null
      ensures r.Ok? ==> ParseExchange(old(Stream())) == Answered(pending[|old(pending)|..], r.value, Stream())
      ensures r.Ok? ==>
        sock.sent == old(sock.sent) + Frame(payload) + Acks(|pending| - |old(pending)| + 1)
      ensures r.Err? ==> if r.error == ConnectionLost then sock == null else sock == old(sock) && sock != null
      ensures r.Err? && r.error != ConnectionLost ==>
        GivenUp(old(Stream()), pending[|old(pending)|..], Stream())
        && sock.sent == old(sock.sent) + Frame(payload) + Acks(|pending| - |old(pending)|)
    {
      hide ParseAck, Frame, ParsePacket, Acks, GivenUp;
      var s := SendPacket(payload);
      if s.Err? {
        return Err(s.error);
      }
      AckedIsGivenUp(old(Stream()), pending[|old(pending)|..], Stream());
      OneMoreAck(old(sock.sent) + Frame(payload), |pending| - |old(pending)|);
      r := ReadPacketFromWire();
    }

    /** Commands one after the other, whatever they ask.  When all of them complete, the i-th answer is the
        i-th reply of the dialogue on the wire. */
    method CmdAll(payloads: seq<string>) returns (r: Outcome<seq<string>>, ghost acks: seq<nat>)
      requires Valid()
      modifies this, sock
      ensures Valid() && old(pending) <= pending
      ensures r.Ok? ==>
        ParseDialogue(old(Stream()), |payloads|) == Held(pending[|old(pending)|..], r.value, Stream())
      ensures r.Ok? && payloads != [] ==>
        sock != null && sock == old(sock) && |acks| == |payloads|
        && sock.sent == old(sock.sent) + Transcript(payloads, acks) && AcksOwed(old(Stream()), acks)
    {
      hide ParseExchange, ParseDialogue, Frame, Acks, GivenUp, Stream, Transcript, AcksOwed;
      acks := [];
      ghost var sent0 := if sock == null then "" else sock.sent;
      TranscriptNone(sent0, Stream());
      assert payloads[..0] == [];
      var replies: seq<string> := [];
      ghost var s0, old0, sock0 := Stream(), pending, sock;
      ghost var oob: seq<string> := [];
      DialogueNone(s0);
      for i := 0 to |payloads|
        invariant Valid() && sock == sock0 && pending == old0 + oob
        invariant ParseDialogue(s0, i) == Held(oob, replies, Stream())
        invariant |acks| == i && AcksOwed(s0, acks) && (i > 0 ==> sock != null)
        invariant sock != null ==> sock.sent == sent0 + Transcript(payloads[..i], acks)
      {
        ghost var before := pending;
        var reply := Cmd(payloads[i]);
        if reply.Err? {
          assert old0 <= before <= pending;
          return Err(reply.error), acks;
        }
        ghost var n := |pending| - |before| + 1;
        TranscriptMore(sent0, payloads, acks, i, n);
        DialogueOneMore(s0, i);
        GrownBy(old0, oob, pending);
        oob := oob + pending[|before|..];
        replies := replies + [reply.value];
        OneMoreOwed(s0, acks, n);
        acks := acks + [n];
      }
      assert pending[|old0|..] == oob && payloads[..|payloads|] == payloads;
      r := Ok(replies);
    }

    /** Separate commands on one connection, each sent whatever became of those before it, on a stub whose
        CPU is halted and that answers the i-th with the i-th of `answers`.  A command that is heard out is
        given the answer to the command that stands as many places before it as commands have been given up
        before their ack; those given up after it do not count. */
    method CmdEach(payloads: seq<string>, ghost answers: seq<string>, ghost tail: string)
      returns (got: seq<Text.Option<string>>, ghost ends: seq<End>, ghost acks: seq<nat>)
      requires Valid()
      modifies this, sock
      ensures Valid() && |got| == |ends| <= |payloads| && (|got| < |payloads| ==> sock == null)
      ensures forall i :: 0 <= i < |got| ==> (got[i].Some? <==> ends[i].Heard?)
      ensures old(StandsAt(Stream(), [], answers, tail)) && Answerable(payloads, answers) ==>
        forall i :: 0 <= i < |got| && got[i].Some? ==> got[i].value == answers[Used(ends[..i])]
      ensures |acks| == |got| && (sock != null ==> sock == old(sock))
      ensures sock != null ==> |got| == |payloads| && sock.sent == old(sock.sent) + Transcript(payloads, acks)
    {
      hide StandsAt, ParseAck, ParseExchange, GivenUp, Frame, Acks, Used, Stream, Transcript;
      got, ends, acks := [], [], [];
      ghost var sent0 := if sock == null then "" else sock.sent;
      TranscriptNone(sent0, Stream());
      assert payloads[..0] == [];
      ghost var lead: seq<string>, sock0 := [], sock;
      ghost var good := StandsAt(Stream(), [], answers, tail) && Answerable(payloads, answers);
      NoneUsed();
      for k := 0 to |payloads|
        invariant Valid() && |got| == |ends| == k && (sock == null || sock == sock0)
        invariant Used(ends) <= k && (good ==> StandsAt(Stream(), lead, answers[Used(ends)..], tail))
        invariant forall i :: 0 <= i < k ==> (got[i].Some? <==> ends[i].Heard?)
        invariant good ==> forall i :: 0 <= i < k && got[i].Some? ==> got[i].value == answers[Used(ends[..i])]
        invariant |acks| == k && (sock != null ==> sock.sent == sent0 + Transcript(payloads[..k], acks))
      {
        ghost var s, before := Stream(), pending;
        var reply := Cmd(payloads[k]);
        if reply.Err? && reply.error == ConnectionLost {
          return;
        }
        ghost var end := if reply.Ok? then Heard else BeforeAck;
        if good {
          ghost var left := answers[Used(ends)..];
          assert left[0] == answers[Used(ends)] && left[0] in answers;
          if reply.Ok? {
            StandsHeard(s, lead, left, tail);
            lead := [];
          } else {
            end, lead := StandsGivenUp(s, lead, left, tail, pending[|before|..], Stream());
          }
        }
        ghost var n := |pending| - |before| + if reply.Ok? then 1 else 0;
        TranscriptMore(sent0, payloads, acks, k, n);
        acks := acks + [n];
        OneMoreEnd(ends, end, answers);
        got := got + [if reply.Ok? then Text.Some(reply.value) else Text.None];
        ends := ends + [end];
      }
      assert payloads[..|payloads|] == payloads;
    }

    /** The loops of `get_sprs`, `get_fprs` and the watcher: one `p` query after the other, the i-th for the
        i-th register. */
    method QueryRegisters(nums: seq<nat>)
      returns (r: Outcome<seq<string>>, ghost queries: seq<string>, ghost acks: seq<nat>)
      requires Valid()
      modifies this, sock
      ensures Valid() && old(pending) <= pending
      ensures r.Ok? ==>
        ParseDialogue(old(Stream()), |nums|) == Held(pending[|old(pending)|..], r.value, Stream())
      ensures |queries| == |nums| && forall i :: 0 <= i < |nums| ==> Queries(queries[i], nums[i])
      ensures r.Ok? && nums != [] ==>
        sock != null && sock == old(sock) && |acks| == |nums|
        && sock.sent == old(sock.sent) + Transcript(queries, acks) && AcksOwed(old(Stream()), acks)
    {
      hide ParseDialogue, Text.ToHex, Stream, Transcript, AcksOwed;
      var payloads := seq(|nums|, i requires 0 <= i < |nums| => "p" + Text.ToHex(nums[i]));
      queries := payloads;
      forall i | 0 <= i < |nums| ensures Queries(queries[i], nums[i]) {
        QueryIs(nums[i]);
      }
      r, acks := CmdAll(payloads);
    }

    /** Queued out-of-band packets first, then the wire. */
    method ReadPacket() returns (r: Outcome<string>)
      requires Valid()
      modifies this, sock
      ensures Valid()
      ensures r.Ok? ==> sock == old(sock)
      ensures r.Ok? && old(pending) != [] ==>
        r.value == old(pending)[0] && pending == old(pending)[1..] && Stream() == old(Stream())
      ensures r.Ok? && old(pending) == [] ==>
        pending == [] && ParsePacket(old(Stream())) == Packet(r.value, Stream())
      ensures r.Err? ==> pending == old(pending) == [] && r.error != Protocol
      ensures r.Err? && r.error != ConnectionLost ==> sock == old(sock) && Stream() == old(Stream())
      ensures r.Err? && r.error == ConnectionLost ==> sock == null
      ensures sock == null || sock == old(sock)
      ensures sock != null ==>
        sock.sent == old(sock.sent) + if r.Ok? && old(pending) == [] then "+" else ""
    {
      hide ParsePacket;
      if pending != [] {
        r := Ok(pending[0]);
        pending := pending[1..];
      } else {
        r := ReadPacketFromWire();
      }
    }

    method ContinueAsync() returns (r: Outcome<()>)
      requires Valid()
      modifies this, sock
      ensures Valid() && old(pending) <= pending
      ensures r.Ok? ==> ParseAck(old(Stream())) == AckParse(pending[|old(pending)|..], Acked, Stream())
      ensures (r.Ok? ==> sock != null) && (sock != null ==> sock == old(sock))
      ensures sock != null ==> sock.sent == old(sock.sent) + Frame("c") + Acks(|pending| - |old(pending)|)
    {
      hide ParseAck, ParsePacket, Frame, Acks;
      r := SendPacket("c");
    }

    /** A step returns the oldest stop reply it can see: a queued one if there is any, otherwise one
        that arrives in front of its own ack, and its own stop reply only when there is neither. */
    method Step() returns (r: Outcome<string>)
      requires Valid()
      modifies this, sock
      ensures Valid()
      ensures r.Ok? ==> ParseAck(old(Stream())).fate == Acked
      ensures r.Ok? ==>
        var a := ParseAck(old(Stream()));
        var queue := old(pending) + a.oob;
        if queue != [] then r.value == queue[0] && pending == queue[1..] && Stream() == a.rest
        else pending == [] && ParsePacket(a.rest) == Packet(r.value, Stream())
      ensures r.Ok? ==> sock == old(sock) && (sock != null ==>
        sock.sent == old(sock.sent) + Frame("s") + Acks(|pending| - |old(pending)| + 1))
      ensures r.Err? ==> sock == null || sock == old(sock)
      ensures r.Err? && sock != null ==>
        old(pending) <= pending && sock.sent == old(sock.sent) + Frame("s") + Acks(|pending| - |old(pending)|)
    {
      hide ParseAck, ParsePacket, Frame, Acks;
      var s := SendPacket("s");
      if s.Err? {
        return Err(s.error);
      }
      assert pending == old(pending) + pending[|old(pending)|..];
      OneMoreAck(old(sock.sent) + Frame("s"), |pending| - |old(pending)|);
      r := ReadPacket();
    }

    method Interrupt() returns (r: Outcome<()>)
      requires Valid()
      modifies this, sock
      ensures Valid() && pending == old(pending)
      ensures r.Ok? ==> sock == old(sock) && sock != null && sock.sent == old(sock.sent) + [3 as char]
      ensures r.Ok? ==> Stream() == old(Stream())
      ensures r.Err? ==> sock == null
    {
      if sock == null {
        return Err(ConnectionLost);
      }
      var ok := sock.SendAll([3 as char]);
      if !ok {
        Close();
        return Err(ConnectionLost);
      }
      r := Ok(());
    }

    /** True only when the heartbeat got its own reply and that is no error; stops met on the way are queued.
        On a connection that lasts, false means an error reply or a heartbeat given up. */
    method ProbeResponsive() returns (alive: bool)
      requires Valid()
      modifies this, sock
      ensures Valid() && old(pending) <= pending
      ensures alive ==>
        var x := ParseExchange(old(Stream()));
        x.Answered? && !("E" <= x.reply) && x.oob == pending[|old(pending)|..] && x.rest == Stream()
      ensures !alive && sock != null ==>
        var x := ParseExchange(old(Stream()));
        GivenUp(old(Stream()), pending[|old(pending)|..], Stream())
        || (x.Answered? && "E" <= x.reply && x.oob == pending[|old(pending)|..] && x.rest == Stream())
      ensures (alive ==> sock != null) && (sock != null ==> sock == old(sock))
      ensures alive ==> sock.sent == old(sock.sent) + Frame("qC") + Acks(|pending| - |old(pending)| + 1)
      ensures !alive && sock != null ==>
        var sent := old(sock.sent) + Frame("qC");
        sock.sent == sent + Acks(|pending| - |old(pending)|) || sock.sent == sent + Acks(|pending| - |old(pending)| + 1)
    {
      hide ParseExchange, GivenUp, Frame, Acks;
      if sock == null {
        return false;
      }
      var reply := Cmd("qC");
      alive := reply.Ok? && !("E" <= reply.value);
    }

    /** Take every queued packet, then read the wire until a read fails or the budget of `polls`
        reads is spent.  Exactly the queue and the next packets of the stream are returned. */
    method DrainStopReplies(polls: nat) returns (out: seq<string>)
      requires Valid()
      modifies this, sock
      ensures Valid() && pending == [] && old(pending) <= out
      ensures var n := |out| - |old(pending)|;
        var reading := ReadPackets(old(Stream()), n);
        n <= polls && reading.Read? && reading.payloads == out[|old(pending)|..]
        && (sock != null ==> sock == old(sock) && reading.rest == Stream() && sock.sent == old(sock.sent) + Acks(n))
    {
      hide ParsePacket, ReadPackets, Acks;
      out := pending;
      pending := [];
      ghost var s0, base := Stream(), |out|;
      ReadNone(s0);
      OneMoreAck("", 0);
      for i := 0 to polls
        invariant Valid() && pending == [] && sock == old(sock) && base == |old(pending)|
        invariant old(pending) <= out && |out| == base + i
        invariant ReadPackets(s0, i) == Read(out[base..], Stream())
        invariant sock != null ==> sock.sent == old(sock.sent) + Acks(i)
      {
        var packet := ReadPacketFromWire();
        if packet.Err? {
          break;
        }
        OneMoreAck(old(sock.sent), i);
        ReadOneMore(s0, i);
        AppendAfter(old(pending), out, packet.value);
        out := out + [packet.value];
      }
    }

    /** The retry loop of `_quiesce_for_modify`: wait again after every failure until a stop has been
        seen and the line is quiet.  However often waits time out in the middle of packets, the stops
        taken are the queue and then the packets of one parse of the stream, none lost or doubled. */
    method ConsumeStops(polls: nat) returns (taken: seq<string>)
      requires Valid()
      modifies this, sock
      ensures Valid()
      ensures taken <= old(pending) ==> pending == old(pending)[|taken|..]
      ensures taken <= old(pending) && sock != null ==> Stream() == old(Stream())
      ensures !(taken <= old(pending)) ==> pending == [] && old(pending) <= taken
      ensures !(taken <= old(pending)) ==>
        var reading := ReadPackets(old(Stream()), |taken| - |old(pending)|);
        reading.Read? && reading.payloads == taken[|old(pending)|..]
        && (sock != null ==> reading.rest == Stream())
      ensures sock != null ==>
        var read := if taken <= old(pending) then 0 else |taken| - |old(pending)|;
        sock == old(sock) && sock.sent == old(sock.sent) + Acks(read)
    {
      hide ParsePacket, ReadPackets, Acks;
      OneMoreAck("", 0);
      taken := [];
      ghost var s0, p0 := Stream(), pending;
      ghost var n := 0;
      ReadNone(s0);
      for i := 0 to polls
        invariant Valid() && (sock == null || sock == old(sock))
        invariant |taken| <= |p0| ==> n == 0 && taken == p0[..|taken|] && pending == p0[|taken|..]
        invariant |taken| > |p0| ==> n == |taken| - |p0| && p0 <= taken && pending == []
        invariant ReadPackets(s0, n).Read? && (sock != null ==> ReadPackets(s0, n).rest == Stream())
        invariant n > 0 ==> ReadPackets(s0, n).payloads == taken[|p0|..]
        invariant sock != null ==> sock.sent == old(sock.sent) + Acks(n)
      {
        ghost var t := taken;
        var stop := ReadPacket();
        if stop.Ok? {
          taken := taken + [stop.value];
          if |t| >= |p0| {
            ReadOneMore(s0, n);
            OneMoreAck(old(sock.sent), n);
            n := n + 1;
            assert t[|p0|..] == [] || |t| > |p0|;
            AppendAfter(p0, t, stop.value);
          } else {
            NextOf(p0, |t|);
          }
        } else if taken != [] {
          break;
        }
      }
    }
  }
}
