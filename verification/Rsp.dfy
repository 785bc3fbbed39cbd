/** Packets of the GDB remote serial protocol as one byte stream: what a single parse of the whole
    stream yields.  A byte is the character with its code; payloads are byte strings. */
module Rsp {
  import opened Text

  // ---- framing ----

  function ByteSum(p: string): nat {
    if p == "" then 0 else p[0] as nat + ByteSum(p[1..])
  }

  function Checksum(p: string): (c: nat)
    ensures c < 256
  {
    ByteSum(p) % 256
  }

  function Frame(p: string): string { "$" + p + "#" + Hex2(Checksum(p)) }

  /** The result of looking for one packet at the front of a stream. */
  datatype Parsed = NeedMore | Packet(payload: string, rest: string)

  /** Skip to the first `$`, take the payload up to the next `#`, drop two checksum bytes. */
  function ParsePacket(s: string): (r: Parsed)
    ensures r.Packet? ==> |r.rest| + |r.payload| + 4 <= |s| && r.rest == s[|s| - |r.rest|..]
  {
    var d := FindChar(s, '$', 0);
    if d == |s| then NeedMore
    else
      var h := FindChar(s, '#', d + 1);
      if |s| < h + 3 then NeedMore else Packet(s[d + 1..h], s[h + 3..])
  }

  /** A frame after any `$`-free junk parses to its payload and leaves exactly what follows. */
  lemma ParseFrame(junk: string, p: string, tail: string)
    requires '$' !in junk && '#' !in p
    ensures ParsePacket(junk + Frame(p) + tail) == Packet(p, tail)
  {
    var s, d := junk + Frame(p) + tail, |junk|;
    var h := d + 1 + |p|;
    assert s[..d] == junk && s[d + 1..h] == p && s[h + 3..] == tail;
    FindCharIs(s, '$', 0, d);
    FindCharIs(s, '#', d + 1, h);
  }

  /** The packet delimited by the first `$` and the next `#`. */
  lemma PacketAt(s: string, start: nat, end: nat)
    requires 0 < start <= end && end + 3 <= |s|
    requires s[start - 1] == '$' && '$' !in s[..start - 1]
    requires s[end] == '#' && '#' !in s[start..end]
    ensures ParsePacket(s) == Packet(s[start..end], s[end + 3..])
  {
  }

  /** A packet already complete does not change when more bytes arrive. */
  lemma ParseMore(s: string, more: string)
    requires ParsePacket(s).Packet?
    ensures ParsePacket(s + more) == Packet(ParsePacket(s).payload, ParsePacket(s).rest + more)
  {
    var d := FindChar(s, '$', 0);
    var h := FindChar(s, '#', d + 1);
    var t := s + more;
    assert t[..d] == s[..d] && t[d + 1..h] == s[d + 1..h] && t[h + 3..] == s[h + 3..] + more;
    FindCharIs(t, '$', 0, d);
    FindCharIs(t, '#', d + 1, h);
  }

  // ---- reading several packets ----

  datatype Reading = Starved | Read(payloads: seq<string>, rest: string)

  function ReadPackets(s: string, n: nat): Reading
    decreases n
  {
    if n == 0 then Read([], s)
    else
      match ParsePacket(s)
      case NeedMore => Starved
      case Packet(p, r) =>
        match ReadPackets(r, n - 1)
        case Starved => Starved
        case Read(ps, r') => Read([p] + ps, r')
  }

  lemma ReadNone(s: string)
    ensures ReadPackets(s, 0) == Read([], s)
  {
  }

  lemma {:induction false} ReadOneMore(s: string, n: nat)
    requires ReadPackets(s, n).Read? && ParsePacket(ReadPackets(s, n).rest).Packet?
    ensures var one := ParsePacket(ReadPackets(s, n).rest);
      ReadPackets(s, n + 1) == Read(ReadPackets(s, n).payloads + [one.payload], one.rest)
    decreases n
  {
    hide ParsePacket;
    if n == 0 {
    } else {
      ReadOneMore(ParsePacket(s).rest, n - 1);
    }
  }

  /** The bytes of payloads framed one after the other, each after some junk. */
  function Frames(junk: seq<string>, payloads: seq<string>): string
    requires |junk| == |payloads|
  {
    if payloads == [] then "" else junk[0] + Frame(payloads[0]) + Frames(junk[1..], payloads[1..])
  }

  /** Framing round trip: reading as many packets as were framed gives back the payloads and
      leaves exactly the trailing bytes. */
  lemma {:induction false} ReadFrames(junk: seq<string>, payloads: seq<string>, tail: string)
    requires |junk| == |payloads|
    requires (forall j <- junk :: '$' !in j) && forall p <- payloads :: '#' !in p
    ensures ReadPackets(Frames(junk, payloads) + tail, |payloads|) == Read(payloads, tail)
  {
    hide ParsePacket, Frame;
    var s := Frames(junk, payloads) + tail;
    if payloads == [] {
      assert s == tail;
    } else {
      var more := Frames(junk[1..], payloads[1..]);
      Associate(junk[0] + Frame(payloads[0]), more, tail);
      ParseFrame(junk[0], payloads[0], more + tail);
      assert ParsePacket(s) == Packet(payloads[0], more + tail);
      ReadFrames(junk[1..], payloads[1..], tail);
    }
  }

  /** The two bytes after `#` are the byte sum of the payload modulo 256 in hexadecimal. */
  lemma FrameChecksum(p: string)
    ensures var f := Frame(p);
      |f| == |p| + 4 && f[0] == '$' && f[1..|p| + 1] == p && f[|p| + 1] == '#'
      && PyInt(f[|p| + 2..], 16) == Some(ByteSum(p) % 256)
  {
    Hex2RoundTrip(Checksum(p));
    assert Frame(p)[|p| + 2..] == Hex2(Checksum(p));
  }

  // ---- acknowledgements and command replies ----

  /** What waiting for the `+` of a sent packet meets: packets in front of it, then its fate. */
  datatype Fate = Acked | Nak | Unexpected | Waiting
  datatype AckParse = AckParse(oob: seq<string>, fate: Fate, rest: string)
  {
    function Before(p: string): AckParse { AckParse([p] + oob, fate, rest) }

    function After(ps: seq<string>): AckParse { AckParse(ps + oob, fate, rest) }
  }

  function ParseAck(s: string): AckParse
    decreases |s|
  {
    if s == "" then AckParse([], Waiting, s)
    else if s[0] == '+' then AckParse([], Acked, s[1..])
    else if s[0] == '-' then AckParse([], Nak, s[1..])
    else if s[0] == '$' then
      match ParsePacket(s)
      case NeedMore => AckParse([], Waiting, s)
      case Packet(p, r) => ParseAck(r).Before(p)
    else AckParse([], Unexpected, s[1..])
  }

  /** One byte decides: an ack, a refusal, the start of a packet in front of the ack, or rubbish. */
  lemma ParseAckStep(s: string)
    requires s != ""
    ensures s[0] == '+' ==> ParseAck(s) == AckParse([], Acked, s[1..])
    ensures s[0] == '-' ==> ParseAck(s) == AckParse([], Nak, s[1..])
    ensures s[0] !in "+-$" ==> ParseAck(s) == AckParse([], Unexpected, s[1..])
    ensures s[0] == '$' && ParsePacket(s).Packet? ==>
      ParseAck(s) == ParseAck(ParsePacket(s).rest).Before(ParsePacket(s).payload)
  {
  }

  lemma AfterBefore(a: AckParse, queued: seq<string>, p: string)
    ensures a.Before(p).After(queued) == a.After(queued + [p])
    ensures a.After([]) == a
    ensures a.oob == [] ==> a.After(queued).oob == queued
  {
  }

  lemma AfterNone(fate: Fate, rest: string, queued: seq<string>)
    ensures AckParse([], fate, rest).After(queued) == AckParse(queued, fate, rest)
  {
  }

  /** A wait for an ack that was given up has queued `oob` and left `after`: either the ack is still to come
      in `after`, or the command's fate was met and `after` is what follows it. */
  predicate GivenUp(before: string, oob: seq<string>, after: string) {
    var a := ParseAck(before);
    a == ParseAck(after).After(oob) || (a.fate != Waiting && a.oob == oob && a.rest == after)
  }

  lemma AckedIsGivenUp(before: string, oob: seq<string>, after: string)
    requires ParseAck(before) == AckParse(oob, Acked, after)
    ensures GivenUp(before, oob, after)
  {
  }

  /** What one command exchange finds on the stream: out-of-band packets, the ack, the reply. */
  datatype Exchange = NoReply | Answered(oob: seq<string>, reply: string, rest: string)

  function ParseExchange(s: string): Exchange {
    var a := ParseAck(s);
    if a.fate != Acked then NoReply
    else
      match ParsePacket(a.rest)
      case NeedMore => NoReply
      case Packet(p, r) => Answered(a.oob, p, r)
  }

  /** What a stub that sends stop replies only before acks puts on the wire for one command. */
  datatype Turn = Turn(oob: seq<string>, reply: string)
  {
    predicate Framable() { '#' !in reply && forall p <- oob :: '#' !in p }

    function Bytes(): string { Packets(oob) + "+" + Frame(reply) }
  }

  function Packets(ps: seq<string>): string {
    if ps == [] then "" else Frame(ps[0]) + Packets(ps[1..])
  }

  lemma {:induction false} ParseAckAfter(oob: seq<string>, tail: string)
    requires forall p <- oob :: '#' !in p
    ensures ParseAck(Packets(oob) + tail) == ParseAck(tail).After(oob)
  {
    hide ParseAck, Frame;
    var s := Packets(oob) + tail;
    if oob == [] {
      assert s == tail;
      assert [] + ParseAck(tail).oob == ParseAck(tail).oob;
    } else {
      assert s == Frame(oob[0]) + (Packets(oob[1..]) + tail);
      ParsePacketThenAck(oob[0], Packets(oob[1..]) + tail);
      ParseAckAfter(oob[1..], tail);
      assert [oob[0]] + (oob[1..] + ParseAck(tail).oob) == oob + ParseAck(tail).oob;
    }
  }

  lemma ParsePacketThenAck(p: string, rest: string)
    requires '#' !in p
    ensures ParseAck(Frame(p) + rest) == ParseAck(rest).Before(p)
  {
    ParseFrame("", p, rest);
    assert "" + Frame(p) + rest == Frame(p) + rest;
  }

  /** An exchange picks out exactly its own reply and leaves exactly what follows. */
  lemma ParseTurn(t: Turn, tail: string)
    requires t.Framable()
    ensures ParseExchange(t.Bytes() + tail) == Answered(t.oob, t.reply, tail)
  {
    hide ParsePacket, Frame, Packets;
    var after := "+" + Frame(t.reply) + tail;
    assert t.Bytes() + tail == Packets(t.oob) + after;
    ParseAckAfter(t.oob, after);
    assert after[1..] == "" + Frame(t.reply) + tail;
    ParseFrame("", t.reply, tail);
    assert ParseAck(after) == AckParse([], Acked, after[1..]);
    AfterNone(Acked, after[1..], t.oob);
  }

  // ---- whole runs of commands ----

  datatype Dialogue = Broken | Held(oob: seq<string>, replies: seq<string>, rest: string)

  /** `n` exchanges in a row on one stream. */
  function ParseDialogue(s: string, n: nat): Dialogue
    decreases n
  {
    if n == 0 then Held([], [], s)
    else
      match ParseExchange(s)
      case NoReply => Broken
      case Answered(oob, p, r) =>
        match ParseDialogue(r, n - 1)
        case Broken => Broken
        case Held(oobs, ps, r') => Held(oob + oobs, [p] + ps, r')
  }

  lemma DialogueNone(s: string)
    ensures ParseDialogue(s, 0) == Held([], [], s)
  {
  }

  lemma {:induction false} DialogueOneMore(s: string, n: nat)
    requires ParseDialogue(s, n).Held? && ParseExchange(ParseDialogue(s, n).rest).Answered?
    ensures var d := ParseDialogue(s, n);
      var x := ParseExchange(d.rest);
      ParseDialogue(s, n + 1) == Held(d.oob + x.oob, d.replies + [x.reply], x.rest)
    decreases n
  {
    hide ParseExchange;
    var x := ParseExchange(s);
    if n == 0 {
      assert ParseDialogue(x.rest, 0) == Held([], [], x.rest);
      assert x.oob + [] == [] + x.oob && [x.reply] + [] == [] + [x.reply];
    } else {
      DialogueOneMore(x.rest, n - 1);
      var d := ParseDialogue(x.rest, n - 1);
      var y := ParseExchange(d.rest);
      assert x.oob + (d.oob + y.oob) == (x.oob + d.oob) + y.oob;
      assert [x.reply] + (d.replies + [y.reply]) == ([x.reply] + d.replies) + [y.reply];
    }
  }

  function Bytes(turns: seq<Turn>): string {
    if turns == [] then "" else turns[0].Bytes() + Bytes(turns[1..])
  }

  function Replies(turns: seq<Turn>): (r: seq<string>)
    ensures |r| == |turns| && forall i :: 0 <= i < |turns| ==> r[i] == turns[i].reply
  {
    if turns == [] then [] else [turns[0].reply] + Replies(turns[1..])
  }

  function OutOfBand(turns: seq<Turn>): seq<string> {
    if turns == [] then [] else turns[0].oob + OutOfBand(turns[1..])
  }

  /** Reply pairing over whole runs: the i-th command gets the i-th reply, every out-of-band packet
      is queued in arrival order, and no byte of any exchange is left behind. */
  lemma {:induction false} DialoguePairs(turns: seq<Turn>, tail: string)
    requires forall t <- turns :: t.Framable()
    ensures ParseDialogue(Bytes(turns) + tail, |turns|) == Held(OutOfBand(turns), Replies(turns), tail)
  {
    if turns == [] {
      assert Bytes(turns) + tail == tail;
    } else {
      var rest := Bytes(turns[1..]) + tail;
      assert Bytes(turns) + tail == turns[0].Bytes() + rest;
      ParseTurn(turns[0], rest);
      DialoguePairs(turns[1..], tail);
    }
  }

  // ---- a command that was given up ----

  lemma {:induction false} BytesAppend(a: seq<Turn>, b: seq<Turn>)
    ensures Bytes(a + b) == Bytes(a) + Bytes(b)
  {
    if a == [] {
      assert a + b == b;
    } else {
      assert (a + b)[1..] == a[1..] + b;
      BytesAppend(a[1..], b);
    }
  }

  /** A reply in front of a turn is one more out-of-band packet of it. */
  lemma JoinTurn(late: Turn, turn: Turn)
    requires turn.Framable() && late.Framable()
    ensures var t := Turn([late.reply] + turn.oob, turn.reply);
      t.Framable() && t.Bytes() == Frame(late.reply) + turn.Bytes()
  {
    hide Frame;
    var t := Turn([late.reply] + turn.oob, turn.reply);
    assert t.oob[1..] == turn.oob;
  }

  /** A command that timed out after its ack: later commands still get their own replies, and the late
      reply is queued in front of the next ack, where it will be taken for a stop reply. */
  lemma LateReply(late: Turn, turns: seq<Turn>, tail: string)
    requires late.Framable() && turns != [] && forall t <- turns :: t.Framable()
    ensures ParseDialogue(Frame(late.reply) + Bytes(turns) + tail, |turns|)
      == Held([late.reply] + OutOfBand(turns), Replies(turns), tail)
  {
    hide ParseDialogue, Frame, Turn.Bytes, Turn.Framable;
    var first := Turn([late.reply] + turns[0].oob, turns[0].reply);
    var all := [first] + turns[1..];
    JoinTurn(late, turns[0]);
    assert all[1..] == turns[1..];
    assert Bytes(all) == Frame(late.reply) + turns[0].Bytes() + Bytes(turns[1..]);
    Associate(Frame(late.reply) + turns[0].Bytes(), Bytes(turns[1..]), tail);
    assert Bytes(all) + tail == Frame(late.reply) + Bytes(turns) + tail;
    DialoguePairs(all, tail);
    assert Replies(all) == Replies(turns);
    assert OutOfBand(all) == [late.reply] + OutOfBand(turns);
  }

  /** A command that timed out before its ack: from then on every command is given the reply of the
      command before it. */
  lemma LateAck(late: Turn, turns: seq<Turn>, tail: string)
    requires late.Framable() && forall t <- turns :: t.Framable()
    ensures var d := ParseDialogue(late.Bytes() + Bytes(turns) + tail, |turns|);
      d.Held? && d.replies == ([late.reply] + Replies(turns))[..|turns|]
  {
    hide ParseDialogue, Turn.Bytes, Turn.Framable;
    var all := [late] + turns;
    var given, rest := all[..|turns|], all[|turns|..];
    assert all == given + rest && all[1..] == turns;
    BytesAppend(given, rest);
    assert Bytes(all) == late.Bytes() + Bytes(turns);
    hide Bytes, Replies;
    assert Bytes(given) + Bytes(rest) + tail == Bytes(given) + (Bytes(rest) + tail);
    DialoguePairs(given, Bytes(rest) + tail);
    assert Replies(given) == ([late.reply] + Replies(turns))[..|turns|];
  }

  // ---- commands in arrears ----

  /** How a command ended for the client: it heard a reply, or gave up before or after reading an ack. */
  datatype End = Heard | BeforeAck | AfterAck

  /** The replies of a stub whose CPU is halted, each right behind its ack. */
  function Plain(replies: seq<string>): string {
    if replies == [] then "" else "+" + Frame(replies[0]) + Plain(replies[1..])
  }

  /** The client, with `lead` still to be queued, stands in front of the first ack of `replies`. */
  predicate StandsAt(s: string, lead: seq<string>, replies: seq<string>, tail: string) {
    replies != [] ==> ParseAck(s) == AckParse(lead, Acked, Frame(replies[0]) + (Plain(replies[1..]) + tail))
  }

  lemma StandsAtStart(replies: seq<string>, tail: string)
    ensures StandsAt(Plain(replies) + tail, [], replies, tail)
  {
    hide Frame, ParseAck, ParsePacket;
    if replies != [] {
      var s := Plain(replies) + tail;
      Associate("+" + Frame(replies[0]), Plain(replies[1..]), tail);
      assert s == "+" + (Frame(replies[0]) + (Plain(replies[1..]) + tail));
      ParseAckStep(s);
    }
  }

  /** A command that is heard out is given the first of those replies, and what led is queued. */
  lemma StandsHeard(s: string, lead: seq<string>, replies: seq<string>, tail: string)
    requires StandsAt(s, lead, replies, tail) && replies != [] && '#' !in replies[0]
    ensures ParseExchange(s) == Answered(lead, replies[0], Plain(replies[1..]) + tail)
    ensures StandsAt(Plain(replies[1..]) + tail, [], replies[1..], tail)
  {
    hide Frame, ParseAck, ParsePacket;
    var rest := Plain(replies[1..]) + tail;
    ParseFrame("", replies[0], rest);
    assert "" + Frame(replies[0]) + rest == Frame(replies[0]) + rest;
    StandsAtStart(replies[1..], tail);
  }

  /** A command given up before its ack leaves the client in front of the same ack, what it met in between
      queued; one given up after it leaves the reply to be queued by the next command. */
  lemma StandsGivenUp(s: string, lead: seq<string>, replies: seq<string>, tail: string, oob: seq<string>, after: string)
    returns (end: End, lead': seq<string>)
    requires StandsAt(s, lead, replies, tail) && replies != [] && '#' !in replies[0] && GivenUp(s, oob, after)
    ensures if end.BeforeAck? then lead == oob + lead' else end.AfterAck? && oob == lead && lead' == [replies[0]]
    ensures StandsAt(after, lead', if end.BeforeAck? then replies else replies[1..], tail)
  {
    hide Frame, ParseAck, ParsePacket;
    if ParseAck(s) == ParseAck(after).After(oob) {
      end, lead' := BeforeAck, ParseAck(after).oob;
    } else {
      end, lead' := AfterAck, [replies[0]];
      var rest := Plain(replies[1..]) + tail;
      ParsePacketThenAck(replies[0], rest);
      StandsAtStart(replies[1..], tail);
    }
  }

  /** How many replies commands that ended so have used up: all but one for each given up before its ack. */
  function Used(ends: seq<End>): (n: nat)
    ensures n <= |ends|
  {
    if ends == [] then 0 else Used(ends[..|ends| - 1]) + if ends[|ends| - 1].BeforeAck? then 0 else 1
  }
}
