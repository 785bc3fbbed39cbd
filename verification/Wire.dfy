/** The connection seen as whole packets, and the stub at its far end: a CPU that runs or is halted,
    one FIFO in each direction, every request served in order, ack and reply sent contiguously. */
module Wire {
  import opened Rsp
  import Text

  datatype Kind = SwBp | HwBp | WriteWp | ReadWp | AccessWp

  /** What a `Z`/`z` packet names. */
  datatype Place = Place(kind: Kind, addr: int, size: int)

  /** What a command asks of the stub. */
  datatype Op = Continue | StepOne | Heartbeat | Query(text: string) | Arm(place: Place) | Disarm(place: Place)
  {
    /** Commands answered by an ack and one reply, leaving the CPU as it is. */
    predicate Replies() { !Continue? && !StepOne? }
  }

  /** Towards the stub: the interrupt byte 0x03, or a numbered command packet. */
  datatype Ask = Break | Ask(serial: nat, op: Op)

  /** Towards the client: an ack, a stop reply, or the reply to a numbered command. */
  datatype Item = Ack | Stop(text: string) | Reply(serial: nat, text: string)

  datatype Line = Line(running: bool, toStub: seq<Ask>, toClient: seq<Item>, armed: set<Place>)

  // ---- the stub ----

  /** A breakpoint or watchpoint fires; or the oldest request is served.  `text` is what the stub
      writes; `heeds` says whether it answers an interrupt that finds the CPU already halted. */
  datatype StubMove = Hit(text: string) | Serve(text: string, heeds: bool)

  predicate CanMove(l: Line, m: StubMove) {
    match m
    case Hit(_) => l.running
    case Serve(text, _) =>
      l.toStub != [] && (l.toStub[0].Ask? && l.toStub[0].op.Heartbeat? ==> "QC" <= text)
  }

  function Moved(l: Line, m: StubMove): Line
    requires CanMove(l, m)
  {
    match m
    case Hit(text) => l.(running := false, toClient := l.toClient + [Stop(text)])
    case Serve(text, heeds) =>
      var rest := l.(toStub := l.toStub[1..]);
      match l.toStub[0]
      case Break =>
        if l.running || heeds then rest.(running := false, toClient := l.toClient + [Stop(text)]) else rest
      case Ask(n, op) =>
        match op
        case Continue => rest.(running := true, toClient := l.toClient + [Ack])
        case StepOne => rest.(running := false, toClient := l.toClient + [Ack, Stop(text)])
        case _ => rest.(toClient := l.toClient + [Ack, Reply(n, text)], armed := Effect(op, l.armed, text))
  }

  /** What a command replied to with `text` does to the armed breakpoints. */
  function Effect(op: Op, armed: set<Place>, text: string): set<Place> {
    if op.Arm? && Accepts(text) then armed + {op.place}
    else if op.Disarm? && Accepts(text) then armed - {op.place}
    else armed
  }

  /** `_set_break` takes an empty reply for "unsupported" and a leading `E` for an error. */
  predicate Accepts(text: string) { text != "" && text[0] != 'E' }

  /** The stub answers every interrupt, also one that finds the CPU halted. */
  predicate Heeds(l: Line, m: StubMove) {
    m.Serve? && l.toStub != [] && l.toStub[0].Break? ==> l.running || m.heeds
  }

  // ---- the client's view ----

  predicate AllStops(items: seq<Item>) { forall i :: 0 <= i < |items| ==> items[i].Stop? }

  predicate AllBreaks(asks: seq<Ask>) { forall i :: 0 <= i < |asks| ==> asks[i].Break? }

  predicate HasStop(items: seq<Item>) { exists i :: 0 <= i < |items| && items[i].Stop? }

  predicate HasBreak(asks: seq<Ask>) { exists i :: 0 <= i < |asks| && asks[i].Break? }

  /** A command's number and the packet that was taken for its reply. */
  datatype Delivery = Delivery(serial: nat, got: Item)

  predicate IsHexDigit(c: char) { '0' <= c <= '9' || 'a' <= c <= 'f' || 'A' <= c <= 'F' }

  /** `bytes.fromhex` accepts the text: pairs of hexadecimal digits, white space between them. */
  predicate FromHex(text: string) {
    text == "" || (if 9 <= text[0] as int <= 13 || text[0] == ' ' then FromHex(text[1..])
                   else |text| >= 2 && IsHexDigit(text[0]) && IsHexDigit(text[1]) && FromHex(text[2..]))
  }

  /** `read_registers` raises on this reply: empty, an error, or no register dump. */
  predicate Raises(text: string) {
    text == "" || (|text| >= 3 && text[0] == 'E' && IsHexDigit(text[1]) && IsHexDigit(text[2])) || !FromHex(text)
  }

  type Octet = b: nat | b < 256

  /** Bytes in lower-case hexadecimal, as a register dump is written. */
  function Dump(bytes: seq<Octet>): string {
    if bytes == [] then "" else Text.Hex2(bytes[0]) + Dump(bytes[1..])
  }

  lemma {:induction false} DumpFromHex(bytes: seq<Octet>)
    ensures FromHex(Dump(bytes)) && |Dump(bytes)| == 2 * |bytes|
  {
    if bytes == [] {
    } else {
      DumpFromHex(bytes[1..]);
      Hex2Digits(bytes[0]);
      assert Dump(bytes)[2..] == Dump(bytes[1..]);
    }
  }

  lemma Hex2Digits(b: nat)
    requires b < 256
    ensures IsHexDigit(Text.Hex2(b)[0]) && IsHexDigit(Text.Hex2(b)[1]) && Text.Hex2(b)[0] != 'E'
    ensures !(9 <= Text.Hex2(b)[0] as int <= 13) && Text.Hex2(b)[0] != ' '
  {
  }

  /** A dump of any bytes is no error; an empty reply, an error reply, and a dump with a digit missing are. */
  lemma DumpsAndErrors(bytes: seq<Octet>, code: nat, rest: string)
    requires code < 256 && bytes != []
    ensures !Raises(Dump(bytes)) && Raises("") && Raises("E" + Text.Hex2(code) + rest)
    ensures Raises(Dump(bytes)[..|Dump(bytes)| - 1])
  {
    DumpFromHex(bytes);
    Hex2Digits(bytes[0]);
    Hex2Digits(code);
    var cut := Dump(bytes)[..|Dump(bytes)| - 1];
    OddIsNoHex(bytes);
    var e := "E" + Text.Hex2(code) + rest;
    assert e[0] == 'E' && e[1] == Text.Hex2(code)[0] && e[2] == Text.Hex2(code)[1];
  }

  lemma {:induction false} OddIsNoHex(bytes: seq<Octet>)
    requires bytes != []
    ensures |Dump(bytes)| == 2 * |bytes| && !FromHex(Dump(bytes)[..|Dump(bytes)| - 1])
  {
    DumpFromHex(bytes);
    Hex2Digits(bytes[0]);
    var d := Dump(bytes);
    var cut := d[..|d| - 1];
    assert cut[0] == d[0] == Text.Hex2(bytes[0])[0];
    if |bytes| > 1 {
      OddIsNoHex(bytes[1..]);
      DumpFromHex(bytes[1..]);
      assert d[2..] == Dump(bytes[1..]);
      assert cut[2..] == Dump(bytes[1..])[..|d| - 3];
    }
  }

  function TextOf(i: Item): string { if i.Ack? then "" else i.text }

  /** Nothing but interrupts on the way out and stop replies on the way in. */
  predicate Quiet(l: Line) { AllBreaks(l.toStub) && AllStops(l.toClient) }

  /** Nothing in flight at all and the CPU halted. */
  predicate Still(l: Line) { !l.running && l.toStub == [] && l.toClient == [] }

  /** What follows the ack of command `n`.  When the CPU was bound to halt before the command was
      served (`halting`), its reply is the last thing the stub ever sends. */
  predicate AfterAck(xs: seq<Item>, n: nat, op: Op, running: bool, halting: bool) {
    if op.Continue? then AllStops(xs) && |xs| == (if running then 0 else 1)
    else if op.StepOne? then AllStops(xs) && |xs| == 1 && !running
    else xs != [] && xs[0].Reply? && xs[0].serial == n && AllStops(xs[1..]) && (halting ==> !running && |xs| == 1)
  }

  /** Stop replies, then the ack of command `n`, then what belongs after it. */
  predicate Served(items: seq<Item>, n: nat, op: Op, running: bool, halting: bool) {
    items != []
    && if items[0].Stop? then Served(items[1..], n, op, running, halting)
       else items[0].Ack? && AfterAck(items[1..], n, op, running, halting)
  }

  /** Command `n` has been sent and its ack not yet read.  `halting`: the CPU halts before the
      command is served.  `still`: the line was still when the command was sent. */
  predicate Sent(l: Line, n: nat, op: Op, halting: bool, still: bool) {
    if l.toStub != [] then
      var last := |l.toStub| - 1;
      l.toStub[last] == Ask(n, op) && AllBreaks(l.toStub[..last]) && AllStops(l.toClient)
      && (halting ==> op.Replies() && (l.running ==> last > 0))
      && (still ==> !l.running && last == 0 && l.toClient == [])
    else
      Served(l.toClient, n, op, l.running, halting) && (still ==> l.toClient[0].Ack?)
  }

  /** The ack of command `n` has been read and its reply not yet. */
  predicate Acknowledged(l: Line, n: nat, halting: bool) {
    l.toStub == [] && AfterAck(l.toClient, n, Heartbeat, l.running, halting)
  }

  /** An interrupt is outstanding unless the CPU is halted. */
  predicate Halting(l: Line) { l.running ==> l.toStub != [] }

  /** The CPU runs, or there is a stop reply still to be read, or an interrupt still to be answered. */
  predicate Covered(l: Line, pending: seq<Item>) {
    l.running || HasStop(l.toClient) || pending != [] || HasBreak(l.toStub)
  }

  /** The number of stray acks in front of the next packet, or the length when there is none. */
  function NextPacket(items: seq<Item>): (i: nat)
    ensures i <= |items|
    ensures forall k :: 0 <= k < i ==> items[k].Ack?
    ensures i < |items| ==> !items[i].Ack?
  {
    if items == [] || !items[0].Ack? then 0 else 1 + NextPacket(items[1..])
  }

  // ---- what every stub move keeps ----

  lemma {:induction false} ServedGrows(items: seq<Item>, n: nat, op: Op, text: string)
    requires Served(items, n, op, true, false)
    ensures Served(items + [Stop(text)], n, op, false, false)
  {
    var more := items + [Stop(text)];
    assert more[1..] == items[1..] + [Stop(text)];
    if items[0].Stop? {
      ServedGrows(items[1..], n, op, text);
    } else if op.Replies() {
      assert more[1..][1..] == items[1..][1..] + [Stop(text)];
    }
  }

  lemma {:induction false} ServedNotRunning(items: seq<Item>, n: nat, op: Op, running: bool, halting: bool)
    requires Served(items, n, op, running, halting) && halting && op.Replies()
    ensures !running
  {
    if items[0].Stop? {
      ServedNotRunning(items[1..], n, op, running, halting);
    }
  }

  lemma {:induction false} StopsThenServed(stops: seq<Item>, xs: seq<Item>, n: nat, op: Op, running: bool,
                                           halting: bool)
    requires AllStops(stops) && AfterAck(xs, n, op, running, halting)
    ensures Served(stops + ([Ack] + xs), n, op, running, halting)
  {
    var items := stops + ([Ack] + xs);
    if stops == [] {
      assert items[1..] == xs;
    } else {
      assert items[1..] == stops[1..] + ([Ack] + xs);
      StopsThenServed(stops[1..], xs, n, op, running, halting);
    }
  }

  lemma QuietKept(l: Line, m: StubMove)
    requires CanMove(l, m) && Quiet(l)
    ensures Quiet(Moved(l, m)) && (Halting(l) ==> Halting(Moved(l, m)))
    ensures !Still(l)
  {
  }

  lemma SentKept(l: Line, n: nat, op: Op, halting: bool, still: bool, m: StubMove)
    requires CanMove(l, m) && Sent(l, n, op, halting, still) && (halting ==> op.Replies())
    ensures Sent(Moved(l, m), n, op, halting, still)
  {
    var l' := Moved(l, m);
    if m.Hit? {
      if l.toStub == [] {
        if halting {
          ServedNotRunning(l.toClient, n, op, l.running, halting);
        }
        ServedGrows(l.toClient, n, op, m.text);
      }
    } else if |l.toStub| == 1 {
      var x := if op.StepOne? then Stop(m.text) else Reply(n, m.text);
      var xs := if op.Continue? then [] else [x];
      assert l'.toClient == l.toClient + ([Ack] + xs);
      StopsThenServed(l.toClient, xs, n, op, l'.running, halting);
    } else {
      var last := |l.toStub| - 1;
      assert l.toStub[0] == l.toStub[..last][0];
      assert l'.toStub[..last - 1] == l.toStub[..last][1..];
    }
  }

  lemma AcknowledgedKept(l: Line, n: nat, halting: bool, m: StubMove)
    requires CanMove(l, m) && Acknowledged(l, n, halting)
    ensures Acknowledged(Moved(l, m), n, halting)
  {
  }

  /** No stop is lost by a stub that answers every interrupt. */
  lemma CoveredKept(l: Line, pending: seq<Item>, m: StubMove)
    requires CanMove(l, m) && Heeds(l, m) && Covered(l, pending)
    ensures Covered(Moved(l, m), pending)
  {
    var l' := Moved(l, m);
    if HasStop(l.toClient) {
      var i :| 0 <= i < |l.toClient| && l.toClient[i].Stop?;
      assert l'.toClient[i] == l.toClient[i];
    }
    if m.Hit? || l.toStub[0].Break? || l.toStub[0].op.StepOne? {
      assert l'.toClient[|l'.toClient| - 1].Stop?;
    } else if HasBreak(l.toStub) {
      var i :| 0 <= i < |l.toStub| && l.toStub[i].Break?;
      assert l'.toStub[i - 1] == l.toStub[i];
    }
  }

  /** The text of the first reply on the line, if there is one. */
  function FirstReply(items: seq<Item>): string {
    if items == [] then "" else if items[0].Reply? then items[0].text else FirstReply(items[1..])
  }

  lemma {:induction false} FirstReplyAfter(items: seq<Item>, more: seq<Item>)
    requires forall i :: 0 <= i < |items| ==> !items[i].Reply?
    ensures FirstReply(items + more) == FirstReply(more)
  {
    if items == [] {
      assert items + more == more;
    } else {
      assert (items + more)[1..] == items[1..] + more;
      FirstReplyAfter(items[1..], more);
    }
  }

  lemma {:induction false} FirstReplyBefore(items: seq<Item>, text: string)
    ensures FirstReply(items + [Stop(text)]) == FirstReply(items)
  {
    if items == [] {
    } else {
      assert (items + [Stop(text)])[1..] == items[1..] + [Stop(text)];
      FirstReplyBefore(items[1..], text);
    }
  }

  /** The armed set is still `before`, or changed exactly as the reply on its way says. */
  predicate Effective(l: Line, op: Op, before: set<Place>) {
    l.armed == if l.toStub != [] then before else Effect(op, before, FirstReply(l.toClient))
  }

  lemma EffectiveKept(l: Line, n: nat, op: Op, halting: bool, still: bool, before: set<Place>, m: StubMove)
    requires CanMove(l, m) && Sent(l, n, op, halting, still) && Effective(l, op, before)
    ensures Effective(Moved(l, m), op, before)
  {
    if m.Hit? {
      FirstReplyBefore(l.toClient, m.text);
    } else if |l.toStub| == 1 && op.Replies() {
      FirstReplyAfter(l.toClient, [Ack, Reply(n, m.text)]);
      assert [Ack, Reply(n, m.text)][1..] == [Reply(n, m.text)];
    }
  }

  // ---- any number of stub moves ----

  /** Bounds how many moves the stub has left: it falls with every move and every item read. */
  function Potential(l: Line): nat { |l.toClient| + 4 * |l.toStub| + if l.running then 2 else 0 }

  predicate CanMoveAll(l: Line, ms: seq<StubMove>)
    decreases |ms|
  {
    ms != [] ==> CanMove(l, ms[0]) && CanMoveAll(Moved(l, ms[0]), ms[1..])
  }

  function MovedAll(l: Line, ms: seq<StubMove>): Line
    requires CanMoveAll(l, ms)
    decreases |ms|
  {
    if ms == [] then l else MovedAll(Moved(l, ms[0]), ms[1..])
  }

  /** `l'` is the line `l` after some moves of the stub. */
  ghost predicate Later(l: Line, l': Line) {
    exists ms :: CanMoveAll(l, ms) && MovedAll(l, ms) == l'
  }

  lemma {:induction false} MoveLast(l: Line, ms: seq<StubMove>, m: StubMove)
    requires CanMoveAll(l, ms) && CanMove(MovedAll(l, ms), m)
    ensures CanMoveAll(l, ms + [m]) && MovedAll(l, ms + [m]) == Moved(MovedAll(l, ms), m)
    decreases |ms|
  {
    if ms == [] {
    } else {
      assert (ms + [m])[1..] == ms[1..] + [m];
      MoveLast(Moved(l, ms[0]), ms[1..], m);
    }
  }

  /** Between commands the stub can only add stops; a line that is still stays exactly as it is. */
  lemma {:induction false} QuietLater(l: Line, ms: seq<StubMove>)
    requires Quiet(l) && CanMoveAll(l, ms)
    ensures var l' := MovedAll(l, ms);
      Quiet(l') && l'.armed == l.armed && (Halting(l) ==> Halting(l')) && (Still(l) ==> l' == l)
    ensures MovedAll(l, ms).running ==> l.running
    ensures l.toStub == [] && l.toClient == [] ==>
      var l' := MovedAll(l, ms);
      l'.toStub == [] && |l'.toClient| == (if l.running && !l'.running then 1 else 0)
    decreases |ms|
  {
    if ms == [] {
    } else {
      QuietKept(l, ms[0]);
      var l1 := Moved(l, ms[0]);
      QuietLater(l1, ms[1..]);
      if l.toStub == [] && l.toClient == [] {
        assert ms[0].Hit?;
        if ms[1..] != [] {
          assert false;
        }
      }
    }
  }

  /** A halted CPU with no request outstanding: nothing moves. */
  lemma HaltedLater(l: Line, ms: seq<StubMove>)
    requires CanMoveAll(l, ms) && !l.running && l.toStub == []
    ensures MovedAll(l, ms) == l
  {
  }

  lemma {:induction false} SentLater(l: Line, ms: seq<StubMove>, n: nat, op: Op, halting: bool, still: bool,
                                     before: set<Place>)
    requires CanMoveAll(l, ms) && Sent(l, n, op, halting, still) && (halting ==> op.Replies())
    requires Effective(l, op, before)
    ensures Sent(MovedAll(l, ms), n, op, halting, still) && Effective(MovedAll(l, ms), op, before)
    decreases |ms|
  {
    if ms == [] {
    } else {
      hide Sent, Effective, Moved;
      SentKept(l, n, op, halting, still, ms[0]);
      EffectiveKept(l, n, op, halting, still, before, ms[0]);
      SentLater(Moved(l, ms[0]), ms[1..], n, op, halting, still, before);
    }
  }

  lemma AcknowledgedLater(l: Line, ms: seq<StubMove>, n: nat, halting: bool)
    requires CanMoveAll(l, ms) && Acknowledged(l, n, halting)
    ensures Acknowledged(MovedAll(l, ms), n, halting) && MovedAll(l, ms).armed == l.armed
    ensures MovedAll(l, ms).toClient[0] == l.toClient[0]
    decreases |ms|
  {
  }

  // ---- the reply to a heartbeat ----

  /** Command `n` is a heartbeat, so a reply to it begins with QC. */
  predicate Hearts(l: Line, n: nat) {
    && (forall i :: 0 <= i < |l.toStub| && l.toStub[i].Ask? && l.toStub[i].serial == n ==> l.toStub[i].op.Heartbeat?)
    && forall i :: 0 <= i < |l.toClient| && l.toClient[i].Reply? && l.toClient[i].serial == n ==>
      "QC" <= l.toClient[i].text
  }

  lemma HeartsMoved(l: Line, m: StubMove, n: nat)
    requires CanMove(l, m) && Hearts(l, n)
    ensures Hearts(Moved(l, m), n)
  {
  }

  lemma {:induction false} HeartsLater(l: Line, ms: seq<StubMove>, n: nat)
    requires CanMoveAll(l, ms) && Hearts(l, n)
    ensures Hearts(MovedAll(l, ms), n)
    decreases |ms|
  {
    hide Hearts, Moved, CanMove;
    if ms == [] {
    } else {
      HeartsMoved(l, ms[0], n);
      HeartsLater(Moved(l, ms[0]), ms[1..], n);
    }
  }

  lemma HeartsRead(l: Line, i: nat, n: nat)
    requires i <= |l.toClient| && Hearts(l, n)
    ensures Hearts(l.(toClient := l.toClient[i..]), n)
  {
  }

  lemma HeartsSent(l: Line, n: nat)
    requires Quiet(l)
    ensures Hearts(l.(toStub := l.toStub + [Ask(n, Heartbeat)]), n)
  {
  }

  // ---- what the CPU does ----

  /** The CPU goes on, stops at a breakpoint, stops for an interrupt, or executes one instruction. */
  datatype CpuEvent = Restarted | Fired | Interrupted | Stepped

  /** What one move of the stub makes the CPU do. */
  function Caused(l: Line, m: StubMove): (events: seq<CpuEvent>)
    requires CanMove(l, m)
    ensures |events| <= 1
  {
    match m
    case Hit(_) => [Fired]
    case Serve(_, heeds) =>
      match l.toStub[0]
      case Break => if l.running || heeds then [Interrupted] else []
      case Ask(_, op) => if op.Continue? then [Restarted] else if op.StepOne? then [Stepped] else []
  }

  function CausedAll(l: Line, ms: seq<StubMove>): seq<CpuEvent>
    requires CanMoveAll(l, ms)
    decreases |ms|
  {
    if ms == [] then [] else Caused(l, ms[0]) + CausedAll(Moved(l, ms[0]), ms[1..])
  }

  /** `l'` is the line `l` after some moves of the stub, on which the CPU did `events`. */
  ghost predicate LaterDid(l: Line, l': Line, events: seq<CpuEvent>) {
    exists ms :: CanMoveAll(l, ms) && MovedAll(l, ms) == l' && CausedAll(l, ms) == events
  }

  lemma {:induction false} CausedLast(l: Line, ms: seq<StubMove>, m: StubMove)
    requires CanMoveAll(l, ms) && CanMove(MovedAll(l, ms), m)
    ensures CanMoveAll(l, ms + [m]) && CausedAll(l, ms + [m]) == CausedAll(l, ms) + Caused(MovedAll(l, ms), m)
    decreases |ms|
  {
    hide Moved, Caused;
    MoveLast(l, ms, m);
    if ms == [] {
    } else {
      assert (ms + [m])[1..] == ms[1..] + [m];
      CausedLast(Moved(l, ms[0]), ms[1..], m);
    }
  }

  lemma DidMore(l: Line, l': Line, events: seq<CpuEvent>, m: StubMove)
    requires LaterDid(l, l', events) && CanMove(l', m)
    ensures LaterDid(l, Moved(l', m), events + Caused(l', m))
  {
    hide Moved, Caused;
    var ms :| CanMoveAll(l, ms) && MovedAll(l, ms) == l' && CausedAll(l, ms) == events;
    MoveLast(l, ms, m);
    CausedLast(l, ms, m);
  }

  lemma DidNothing(l: Line)
    ensures LaterDid(l, l, [])
  {
    assert CanMoveAll(l, []) && MovedAll(l, []) == l && CausedAll(l, []) == [];
  }

  /** A halted CPU that nobody asks for anything does nothing. */
  lemma HaltedDid(l: Line, l': Line, events: seq<CpuEvent>)
    requires LaterDid(l, l', events) && !l.running && l.toStub == []
    ensures l' == l && events == []
  {
  }

  /** What the command makes the CPU do up to now: `c` makes it go on, until a breakpoint fires. */
  function Doing(op: Op, running: bool): seq<CpuEvent> {
    if op.Continue? then (if running then [Restarted] else [Restarted, Fired])
    else if op.StepOne? then [Stepped]
    else []
  }

  /** The command is the last thing the CPU obeyed; and the only one since `before` when the line was still. */
  predicate Obeyed(op: Op, running: bool, still: bool, before: seq<CpuEvent>, now: seq<CpuEvent>) {
    var doing := Doing(op, running);
    && before <= now && |before| + |doing| <= |now| && now[|now| - |doing|..] == doing
    && (still ==> now == before + doing)
  }

  /** The command is still on its way, or has been obeyed. */
  predicate Followed(l: Line, op: Op, still: bool, before: seq<CpuEvent>, now: seq<CpuEvent>) {
    && before <= now
    && if l.toStub != [] then still ==> now == before else Obeyed(op, l.running, still, before, now)
  }

  lemma {:induction false} SteppedNotRunning(items: seq<Item>, n: nat, op: Op, running: bool, halting: bool)
    requires Served(items, n, op, running, halting) && op.StepOne?
    ensures !running
  {
    if items[0].Stop? {
      SteppedNotRunning(items[1..], n, op, running, halting);
    }
  }

  lemma FollowedKept(l: Line, n: nat, op: Op, halting: bool, still: bool, before: seq<CpuEvent>, now: seq<CpuEvent>,
                     m: StubMove)
    requires CanMove(l, m) && Sent(l, n, op, halting, still) && (still && op.Replies() ==> halting)
    requires Followed(l, op, still, before, now)
    ensures Followed(Moved(l, m), op, still, before, now + Caused(l, m))
  {
    if l.toStub == [] {
      if op.StepOne? {
        SteppedNotRunning(l.toClient, n, op, l.running, halting);
      } else if op.Replies() && still {
        ServedNotRunning(l.toClient, n, op, l.running, halting);
      }
    }
  }

  lemma {:induction false} FollowedLater(l: Line, ms: seq<StubMove>, n: nat, op: Op, halting: bool, still: bool,
                                         before: seq<CpuEvent>, now: seq<CpuEvent>)
    requires CanMoveAll(l, ms) && Sent(l, n, op, halting, still)
    requires (halting ==> op.Replies()) && (still && op.Replies() ==> halting)
    requires Followed(l, op, still, before, now)
    ensures Followed(MovedAll(l, ms), op, still, before, now + CausedAll(l, ms))
    decreases |ms|
  {
    hide Sent, Followed, Moved, Caused;
    if ms == [] {
      assert now + [] == now;
    } else {
      SentKept(l, n, op, halting, still, ms[0]);
      FollowedKept(l, n, op, halting, still, before, now, ms[0]);
      FollowedLater(Moved(l, ms[0]), ms[1..], n, op, halting, still, before, now + Caused(l, ms[0]));
      Text.Associate(now, Caused(l, ms[0]), CausedAll(Moved(l, ms[0]), ms[1..]));
    }
  }

  // ---- one change of the armed breakpoints, answered or not ----

  predicate Changes(op: Op) { op.Arm? || op.Disarm? }

  /** What is armed once the change is done. */
  function Changed(op: Op, before: set<Place>): set<Place> {
    if op.Arm? then before + {op.place} else if op.Disarm? then before - {op.place} else before
  }

  /** The change `op` has been done or not, and no other one is outstanding. */
  predicate OnlyBy(l: Line, op: Op, before: set<Place>) {
    && (l.armed == before || l.armed == Changed(op, before))
    && forall i :: 0 <= i < |l.toStub| && l.toStub[i].Ask? && Changes(l.toStub[i].op) ==> l.toStub[i].op == op
  }

  lemma OnlyByMoved(l: Line, m: StubMove, op: Op, before: set<Place>)
    requires CanMove(l, m) && OnlyBy(l, op, before)
    ensures OnlyBy(Moved(l, m), op, before)
  {
  }

  lemma {:induction false} OnlyByMovedAll(l: Line, ms: seq<StubMove>, op: Op, before: set<Place>)
    requires CanMoveAll(l, ms) && OnlyBy(l, op, before)
    ensures OnlyBy(MovedAll(l, ms), op, before)
    decreases |ms|
  {
    hide OnlyBy, Moved, CanMove;
    if ms == [] {
    } else {
      OnlyByMoved(l, ms[0], op, before);
      OnlyByMovedAll(Moved(l, ms[0]), ms[1..], op, before);
    }
  }

  /** Whatever change is the only one on the line `l`, it still is on the line `l'`, where `sent` may have been
      asked for since. */
  ghost predicate SameChange(l: Line, l': Line, sent: set<Op>) {
    forall op, before ::
      OnlyBy(l, op, before) && (forall o <- sent :: Changes(o) ==> o == op) ==> OnlyBy(l', op, before)
  }

  lemma SameLater(l: Line, l': Line)
    requires Later(l, l')
    ensures SameChange(l, l', {})
  {
    hide OnlyBy;
    var ms :| CanMoveAll(l, ms) && MovedAll(l, ms) == l';
    forall op, before | OnlyBy(l, op, before) ensures OnlyBy(l', op, before) {
      OnlyByMovedAll(l, ms, op, before);
    }
  }

  lemma SameTwice(l: Line, l': Line, l'': Line, sent: set<Op>, sent': set<Op>)
    requires SameChange(l, l', sent) && SameChange(l', l'', sent') && sent <= sent'
    ensures SameChange(l, l'', sent')
  {
    hide OnlyBy;
  }

  lemma SameMore(l: Line, l': Line, sent: set<Op>, sent': set<Op>)
    requires SameChange(l, l', sent) && sent <= sent'
    ensures SameChange(l, l', sent')
  {
    hide OnlyBy;
  }

  lemma SameAtFirst(l: Line, sent: set<Op>)
    ensures SameChange(l, l, sent)
  {
  }

  lemma SameRead(l: Line, left: seq<Item>)
    ensures SameChange(l, l.(toClient := left), {})
  {
  }

  lemma SameWritten(l: Line, ask: Ask, sent: set<Op>)
    requires ask.Ask? ==> ask.op in sent
    ensures SameChange(l, l.(toStub := l.toStub + [ask]), sent)
  {
    hide Changed, Changes;
  }

  // ---- the same line as bytes ----

  function ItemBytes(i: Item): string {
    match i
    case Ack => "+"
    case Stop(t) => Frame(t)
    case Reply(_, t) => Frame(t)
  }

  function LineBytes(items: seq<Item>): string {
    if items == [] then "" else ItemBytes(items[0]) + LineBytes(items[1..])
  }

  predicate Framable(items: seq<Item>) {
    forall i :: 0 <= i < |items| ==> items[i].Ack? || '#' !in items[i].text
  }

  function Texts(stops: seq<Item>): seq<string>
    requires AllStops(stops)
  {
    if stops == [] then [] else [stops[0].text] + Texts(stops[1..])
  }

  lemma {:induction false} StopBytes(stops: seq<Item>, items: seq<Item>)
    requires AllStops(stops) && Framable(stops)
    ensures LineBytes(stops + items) == Packets(Texts(stops)) + LineBytes(items)
    ensures forall t <- Texts(stops) :: '#' !in t
  {
    hide Frame;
    if stops == [] {
      assert stops + items == items;
    } else {
      assert (stops + items)[1..] == stops[1..] + items;
      StopBytes(stops[1..], items);
    }
  }

  /** The byte-level client and the packet-level line agree: reading an ack on the bytes of a line
      queues exactly the stop replies in front of the ack and leaves exactly the bytes behind it. */
  lemma AckOnLine(stops: seq<Item>, rest: seq<Item>)
    requires AllStops(stops) && Framable(stops)
    ensures ParseAck(LineBytes(stops + [Ack] + rest)) == AckParse(Texts(stops), Acked, LineBytes(rest))
  {
    hide Frame, ParsePacket;
    StopBytes(stops, [Ack] + rest);
    assert stops + [Ack] + rest == stops + ([Ack] + rest);
    assert ([Ack] + rest)[1..] == rest;
    var tail := LineBytes([Ack] + rest);
    assert tail == "+" + LineBytes(rest);
    ParseAckAfter(Texts(stops), tail);
    ParseAckStep(tail);
    AfterBefore(ParseAck(tail), Texts(stops), "");
  }

  /** One command on the bytes of a line gets the reply that stands behind its ack. */
  lemma ExchangeOnLine(stops: seq<Item>, n: nat, text: string, rest: seq<Item>)
    requires AllStops(stops) && Framable(stops) && '#' !in text
    ensures ParseExchange(LineBytes(stops + [Ack, Reply(n, text)] + rest))
      == Answered(Texts(stops), text, LineBytes(rest))
  {
    hide Frame, ParseAck, ParsePacket;
    var after := [Reply(n, text)] + rest;
    assert stops + [Ack, Reply(n, text)] + rest == stops + [Ack] + after;
    AckOnLine(stops, after);
    assert after[1..] == rest;
    ParseFrame("", text, LineBytes(rest));
    assert "" + Frame(text) + LineBytes(rest) == Frame(text) + LineBytes(rest);
  }

  /** Reading a packet on the bytes of a line skips stray acks and takes the next packet whole. */
  lemma {:induction false} PacketOnLine(acks: nat, item: Item, rest: seq<Item>)
    requires !item.Ack? && '#' !in item.text
    ensures ParsePacket(LineBytes(seq(acks, i => Ack) + [item] + rest)) == Packet(item.text, LineBytes(rest))
  {
    hide Frame, ParsePacket;
    AckBytes(acks, [item] + rest);
    assert seq(acks, i => Ack) + [item] + rest == seq(acks, i => Ack) + ([item] + rest);
    assert ([item] + rest)[1..] == rest;
    ParseFrame(seq(acks, i => '+'), item.text, LineBytes(rest));
    assert seq(acks, i => '+') + Frame(item.text) + LineBytes(rest)
      == seq(acks, i => '+') + (Frame(item.text) + LineBytes(rest));
  }

  lemma {:induction false} AckBytes(acks: nat, items: seq<Item>)
    ensures LineBytes(seq(acks, i => Ack) + items) == seq(acks, i => '+') + LineBytes(items)
  {
    hide Frame;
    if acks == 0 {
      assert seq(acks, i => Ack) + items == items;
    } else {
      var more := seq(acks, i => Ack) + items;
      assert more[1..] == seq(acks - 1, i => Ack) + items;
      AckBytes(acks - 1, items);
      assert seq(acks, i => '+') == "+" + seq(acks - 1, i => '+');
    }
  }
}
