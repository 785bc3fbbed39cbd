/** The tool thread and the watcher thread sharing one line under `gdb_lock`, as a transition system:
    stub moves and single steps of either thread in any order.  Programs are trees of the steps the
    source takes; one discipline on programs gives reply pairing, the modification fence and
    "no lost stop" on every run, and each tool of the source keeps that discipline. */
module Interleaving {
  import opened Wire

  // ---- programs ----

  datatype Prog =
    | Done
    | Acquire(next: Prog)                 // enter `with session.gdb_lock` (reentrant)
    | Release(next: Prog)                 // leave it
    | Send(op: Op, next: Prog)            // write a command packet
    | GetAck(next: Prog, late: Prog)      // `_consume_ack`; `late` after a timeout
    | GetReply(next: Prog, late: Prog)    // `_read_packet_from_wire` of the reply; `late` after a timeout
    | OnReply(good: Prog, bad: Prog)      // `bad` when `read_registers` raises on the reply read last
    | Interrupt(next: Prog)               // write 0x03
    | Wait(got: Prog, quiet: Prog)        // `wait_for_stop`: a stop, or a timeout
    | Clear(next: Prog)                   // forget the queued stops
    | Sweep(next: Prog)                   // read and discard any number of stops
    | Requeue(next: Prog)                 // append the stop taken last to the queue
    | MarkPaused(next: Prog) | MarkRunning(next: Prog) | MarkError(next: Prog)
    | IfRunning(yes: Prog, no: Prog)
    | Choose(left: Prog, right: Prog)     // a branch on data this model leaves open
    | Claim(fact: Fact, next: Prog)       // no step of the source: a place where a fact is claimed

  /** What is claimed: the protected block of `_safe_to_modify` starts here after a fence; a nested use of it
      looks at the session state here; the outermost use is about to leave the lock here; the watcher is about to
      leave it behind a stop that it has dealt with. */
  datatype Fact = Fenced | Nested | Restored | WentOn

  datatype Mode = Running | Paused | Other

  datatype Tid = Tool | Watcher

  datatype Thread = Thread(prog: Prog, depth: nat, serial: nat, held: Item, reply: string)

  /** `cpu` is what the CPU did last. */
  datatype State = State(line: Line, pending: seq<Item>, mode: Mode, tool: Thread, watcher: Thread,
                         nextSerial: nat, delivered: seq<Delivery>, cpu: CpuEvent)
  {
    function Get(t: Tid): Thread { if t.Tool? then tool else watcher }

    function Put(t: Tid, th: Thread): State { if t.Tool? then this.(tool := th) else this.(watcher := th) }
  }

  function Other(t: Tid): Tid { if t.Tool? then Watcher else Tool }

  // ---- steps ----

  datatype Move =
    | Stub(m: StubMove)
    | Start(t: Tid, prog: Prog)           // an idle thread begins the next call
    | Step(t: Tid, taken: bool)           // `taken` selects the branch, `false` at a timeout

  predicate PacketReady(s: State) {
    s.pending != [] || NextPacket(s.line.toClient) < |s.line.toClient|
  }

  predicate Enabled(s: State, move: Move) {
    match move
    case Stub(m) => CanMove(s.line, m)
    case Start(t, prog) => s.Get(t).prog.Done?
    case Step(t, taken) =>
      match s.Get(t).prog
      case Done => false
      case Acquire(_) => s.Get(Other(t)).depth == 0
      case Release(_) => s.Get(t).depth > 0
      case GetAck(_, _) => taken ==> s.line.toClient != []
      case GetReply(_, _) => taken ==> NextPacket(s.line.toClient) < |s.line.toClient|
      case OnReply(_, _) => taken == !Raises(s.Get(t).reply)
      case Wait(_, _) => taken ==> PacketReady(s)
      case Sweep(_) => taken ==> PacketReady(s)
      case _ => true
  }

  /** Queued packets first, then the wire. */
  function TakePacket(s: State): (State, Item)
    requires PacketReady(s)
  {
    if s.pending != [] then (s.(pending := s.pending[1..]), s.pending[0])
    else
      var i := NextPacket(s.line.toClient);
      (s.(line := s.line.(toClient := s.line.toClient[i + 1..])), s.line.toClient[i])
  }

  function Next(s: State, move: Move): State
    requires Enabled(s, move)
  {
    match move
    case Stub(m) =>
      var did := Caused(s.line, m);
      s.(line := Moved(s.line, m), cpu := if did == [] then s.cpu else did[0])
    case Start(t, prog) => s.Put(t, s.Get(t).(prog := prog))
    case Step(t, taken) => StepOf(s, t, taken)
  }

  function StepOf(s: State, t: Tid, taken: bool): State
    requires Enabled(s, Step(t, taken))
  {
    var th := s.Get(t);
    match th.prog
    case Acquire(next) => s.Put(t, th.(prog := next, depth := th.depth + 1))
    case Release(next) => s.Put(t, th.(prog := next, depth := th.depth - 1))
    case Send(op, next) =>
      s.(line := s.line.(toStub := s.line.toStub + [Ask(s.nextSerial, op)]), nextSerial := s.nextSerial + 1)
       .Put(t, th.(prog := next, serial := s.nextSerial))
    case GetAck(next, late) =>
      if !taken then s.Put(t, th.(prog := late)) else
      var first, rest := s.line.toClient[0], s.line.(toClient := s.line.toClient[1..]);
      if first.Ack? then s.(line := rest).Put(t, th.(prog := next))
      else s.(line := rest, pending := s.pending + [first])
    case GetReply(next, late) =>
      if !taken then s.Put(t, th.(prog := late)) else
      var i := NextPacket(s.line.toClient);
      s.(line := s.line.(toClient := s.line.toClient[i + 1..]),
         delivered := s.delivered + [Delivery(th.serial, s.line.toClient[i])])
       .Put(t, th.(prog := next, reply := TextOf(s.line.toClient[i])))
    case OnReply(good, bad) => s.Put(t, th.(prog := if taken then good else bad))
    case Interrupt(next) =>
      s.(line := s.line.(toStub := s.line.toStub + [Break])).Put(t, th.(prog := next))
    case Wait(got, quiet) =>
      if taken then
        var (s', item) := TakePacket(s);
        s'.Put(t, th.(prog := got, held := item))
      else s.Put(t, th.(prog := quiet))
    case Clear(next) => s.(pending := []).Put(t, th.(prog := next))
    case Sweep(next) => if taken then TakePacket(s).0 else s.Put(t, th.(prog := next))
    case Requeue(next) => s.(pending := s.pending + [th.held]).Put(t, th.(prog := next))
    case MarkPaused(next) =>
      s.(mode := if s.mode.Running? then Paused else s.mode).Put(t, th.(prog := next))
    case MarkRunning(next) =>
      s.(mode := if s.mode.Paused? then Running else s.mode).Put(t, th.(prog := next))
    case MarkError(next) => s.(mode := Mode.Other).Put(t, th.(prog := next))
    case IfRunning(yes, no) => s.Put(t, th.(prog := if s.mode.Running? then yes else no))
    case Choose(left, right) => s.Put(t, th.(prog := if taken then left else right))
    case Claim(_, next) => s.Put(t, th.(prog := next))
  }

  // ---- the discipline ----

  /** What the thread in the lock knows.  `Outside` is a thread that does not hold the lock. */
  datatype Phase = Free | AwaitAck(op: Op) | AwaitReply

  datatype ModeKnown = AnyMode | IsRunning | IsPaused | NotRunning

  datatype Know = Outside | Inside(
    depth: nat,        // how often the lock is held
    phase: Phase,      // between commands, or waiting for an ack or a reply
    covered: bool,     // no stop is lost: see Covered
    accounted: bool,   // Covered, or the session is not in state RUNNING
    mode: ModeKnown,   // the state of the session
    halting: bool,     // the CPU is halted or an interrupt is on its way
    still: bool,       // nothing in flight, CPU halted (when the current command was sent)
    swept: bool,       // the queue is empty
    resumed: bool,     // the CPU was told to go on, and nothing else since: see GoesOn
    holding: bool)     // the stop taken last is held and not yet passed on
  {
    predicate NowRunning() { Inside? && mode.IsRunning? }

    predicate NowHalted() { Inside? && (mode.IsPaused? || mode.NotRunning?) }
  }

  const ENTERED := Inside(1, Free, false, true, AnyMode, false, false, false, false, false)

  /** What the thread in the lock knows after its next step. */
  function Learned(k: Know, p: Prog, taken: bool, running: bool): Know {
    if k.Outside? then (if p.Acquire? then ENTERED else k)
    else
      match p
      case Acquire(_) => k.(depth := k.depth + 1)
      case Release(_) => if k.depth > 1 then k.(depth := k.depth - 1) else Outside
      case Send(op, _) => AfterSend(k, op)
      case GetAck(_, _) => if k.phase.AwaitAck? then AfterAckRead(k) else k
      case GetReply(_, _) => k.(phase := Free, still := k.halting)
      case Interrupt(_) => k.(covered := true, accounted := true, halting := true, still := false, resumed := false)
      case Wait(_, _) => if taken then k.(covered := false, accounted := k.NowHalted(), holding := true) else k
      case Clear(_) => k.(covered := false, accounted := k.NowHalted(), swept := true, holding := false)
      case Sweep(_) => k.(covered := false, accounted := k.NowHalted(), holding := false)
      case Requeue(_) => k.(covered := true, accounted := true, swept := false, holding := false)
      case MarkPaused(_) => k.(mode := AfterPause(k.mode), accounted := true)
      case MarkError(_) => k.(mode := NotRunning, accounted := true)
      case MarkRunning(_) => k.(mode := AfterResume(k.mode))
      case IfRunning(_, _) =>
        if running then k.(mode := IsRunning)
        else k.(mode := if k.mode.IsPaused? then IsPaused else NotRunning, accounted := true)
      // A reply on which the source raises is one an obliging stub does not send.
      case OnReply(_, _) => if taken then k else k.(covered := true, accounted := true)
      case _ => k
  }

  function AfterPause(m: ModeKnown): ModeKnown { if m.IsRunning? || m.IsPaused? then IsPaused else NotRunning }

  function AfterResume(m: ModeKnown): ModeKnown { if m.IsRunning? || m.IsPaused? then IsRunning else AnyMode }

  /** What a step may rely on. */
  predicate Permitted(p: Prog, k: Know) {
    if k.Outside? then p.Done? || p.Acquire? || p.IfRunning?
    else
      k.depth > 0 &&
      match p
      case Done => false
      case Release(_) => k.depth > 1 || (k.phase.Free? && k.accounted)
      case Send(_, next) => k.phase.Free? && next.GetAck?
      case GetAck(next, _) => k.phase.AwaitAck? && (k.phase.op.Replies() ==> next.GetReply?)
      case GetReply(_, _) => k.phase.AwaitReply?
      case Interrupt(_) => k.phase.Free?
      case Wait(_, _) => k.phase.Free?
      case Clear(_) => k.phase.Free?
      case Sweep(_) => k.phase.Free?
      case Requeue(_) => k.phase.Free? && k.holding
      case MarkRunning(_) => k.covered && k.resumed
      case Claim(fact, _) => Known(fact, k)
      case _ => true
  }

  predicate Known(fact: Fact, k: Know)
    requires k.Inside?
  {
    match fact
    case Fenced => k.phase.Free? && k.still && k.swept && k.NowHalted()
    case Nested => k.NowHalted()
    case Restored => k.phase.Free? && k.NowRunning() && k.covered && k.resumed
    case WentOn => k.phase.Free? && k.covered && k.resumed
  }

  /** Every step of the program may rely on what it needs, on every branch that can be taken while exchanges are
      answered in time. */
  predicate Disciplined(p: Prog, k: Know)
    decreases p
  {
    Permitted(p, k) &&
    match p
    case Done => true
    case Wait(got, quiet) =>
      Disciplined(got, Learned(k, p, true, true)) && Disciplined(quiet, Learned(k, p, false, true))
    case IfRunning(yes, no) =>
      (k.NowHalted() || Disciplined(yes, Learned(k, p, true, true))) && Disciplined(no, Learned(k, p, true, false))
    case OnReply(good, bad) =>
      Disciplined(good, Learned(k, p, true, true)) && Disciplined(bad, Learned(k, p, false, true))
    case Choose(left, right) => Disciplined(left, k) && Disciplined(right, k)
    case _ => Disciplined(p.next, Learned(k, p, true, true))
  }

  function AfterSend(k: Know, op: Op): Know
    requires k.Inside?
  {
    k.(phase := AwaitAck(op), halting := op.Replies() && (k.halting || k.still),
       still := op.Replies() && k.still, swept := k.swept && op.Replies() && k.still, resumed := false)
  }

  function AfterAckRead(k: Know): Know
    requires k.Inside? && k.phase.AwaitAck?
  {
    if k.phase.op.Replies() then k.(phase := AwaitReply)
    else k.(phase := Free, covered := true, accounted := true, resumed := k.phase.op.Continue?)
  }

  // ---- the invariant ----

  /** The CPU was told to go on, and has since done nothing but perhaps run into a breakpoint. */
  predicate GoesOn(l: Line, cpu: CpuEvent) { l.toStub == [] && cpu == if l.running then Restarted else Fired }

  /** `obliging`: the stub has answered every interrupt so far, and every register read decently. */
  predicate Holds(s: State, th: Thread, k: Know, obliging: bool)
    requires k.Inside?
  {
    && (match k.phase
        case Free =>
          Quiet(s.line) && (k.halting ==> Halting(s.line)) && (k.still ==> Still(s.line))
          && (k.resumed ==> GoesOn(s.line, s.cpu))
        case AwaitAck(op) =>
          Sent(s.line, th.serial, op, k.halting, k.still) && (k.halting ==> op.Replies())
          && (k.still ==> k.halting) && (k.swept ==> k.still) && !k.resumed
          && (op.Continue? && s.line.toStub == [] ==> GoesOn(s.line, s.cpu))
        case AwaitReply => Acknowledged(s.line, th.serial, k.halting) && !k.resumed)
    && (k.phase.AwaitAck? <==> th.prog.GetAck?)
    && (k.phase.AwaitReply? <==> th.prog.GetReply?)
    && (obliging && k.covered ==> Covered(s.line, s.pending))
    && (obliging && k.accounted && s.mode.Running? ==> Covered(s.line, s.pending))
    && (k.NowHalted() ==> !s.mode.Running?) && (k.mode.IsRunning? ==> s.mode.Running?)
    && (k.mode.IsPaused? ==> s.mode.Paused?)
    && (k.swept ==> s.pending == [])
    && (k.holding ==> th.held.Stop?)
  }

  predicate Paired(s: State) {
    forall i :: 0 <= i < |s.delivered| ==>
      s.delivered[i].got.Reply? && s.delivered[i].got.serial == s.delivered[i].serial
  }

  /** `k` is what the thread in the lock knows, if there is one. */
  predicate Inv(s: State, k: Know, obliging: bool) {
    && Paired(s) && AllStops(s.pending)
    && (s.tool.depth == 0 || s.watcher.depth == 0)
    && (s.tool.depth == 0 ==> Disciplined(s.tool.prog, Outside))
    && (s.watcher.depth == 0 ==> Disciplined(s.watcher.prog, Outside))
    && (if s.tool.depth > 0 then Owns(s, s.tool, k, obliging)
        else if s.watcher.depth > 0 then Owns(s, s.watcher, k, obliging)
        else Quiet(s.line) && (obliging && s.mode.Running? ==> Covered(s.line, s.pending)))
  }

  predicate Owns(s: State, th: Thread, k: Know, obliging: bool) {
    k.Inside? && k.depth == th.depth && Disciplined(th.prog, k) && Holds(s, th, k, obliging)
  }

  /** The stub answers an interrupt, also one that finds the CPU halted, and no reply makes a register
      read raise. */
  predicate Obliges(s: State, move: Move) {
    match move
    case Stub(m) => Heeds(s.line, m)
    case Start(_, _) => true
    case Step(t, taken) => s.Get(t).prog.OnReply? ==> taken
  }

  /** No exchange is given up halfway. */
  predicate Prompt(s: State, move: Move) {
    move.Step? && (s.Get(move.t).prog.GetAck? || s.Get(move.t).prog.GetReply?) ==> move.taken
  }

  // ---- every step keeps it ----

  /** The step of a thread that holds the lock, for everything but what other threads see. */
  predicate OwnerKept(s: State, s': State, t: Tid, k': Know, obliging: bool) {
    && Owns(s', s'.Get(t), k', obliging)
    && (Paired(s) ==> Paired(s')) && AllStops(s'.pending)
    && s'.Get(Other(t)) == s.Get(Other(t))
  }

  lemma SendOnQuietLine(l: Line, n: nat, op: Op, halting: bool, still: bool)
    requires Quiet(l) && (halting ==> Halting(l)) && (still ==> Still(l))
    ensures Sent(l.(toStub := l.toStub + [Ask(n, op)]), n, op,
      op.Replies() && (halting || still), op.Replies() && still)
    ensures l.toStub + [Ask(n, op)] != [] && l.toStub <= l.toStub + [Ask(n, op)]
  {
  }

  lemma SendShape(p: Prog, k: Know)
    requires k.Inside? && p.Send? && Disciplined(p, k)
    ensures k.phase.Free? && p.next.GetAck? && Disciplined(p.next, AfterSend(k, p.op))
  {
  }

  lemma SendKeeps(s: State, t: Tid, k: Know, obliging: bool)
    requires Owns(s, s.Get(t), k, obliging) && AllStops(s.pending)
    requires s.Get(t).prog.Send?
    ensures OwnerKept(s, StepOf(s, t, true), t, AfterSend(k, s.Get(t).prog.op), obliging)
  {
    SendShape(s.Get(t).prog, k);
    SendStep(s, t);
    hide Sent, Covered, Quiet, Halting, Still, GoesOn, Acknowledged, AfterAckRead, Disciplined, Paired, AllStops, StepOf;
    var s' := StepOf(s, t, true);
    SendOnQuietLine(s.line, s.nextSerial, s.Get(t).prog.op, k.halting, k.still);
    CoverMore(s.line, s'.line, s.pending, s'.pending);
    SamePairs(s, s');
  }

  lemma SendStep(s: State, t: Tid)
    requires s.Get(t).prog.Send?
    ensures var s', th := StepOf(s, t, true), s.Get(t);
      && s'.line == s.line.(toStub := s.line.toStub + [Ask(s.nextSerial, th.prog.op)])
      && s'.Get(t) == th.(prog := th.prog.next, serial := s.nextSerial) && s'.Get(Other(t)) == s.Get(Other(t))
      && (s'.pending, s'.mode, s'.delivered, s'.cpu) == (s.pending, s.mode, s.delivered, s.cpu)
  {
  }

  lemma SamePairs(s: State, s': State)
    requires s'.delivered == s.delivered
    ensures Paired(s') <==> Paired(s)
  {
  }

  /** Growing either direction of the line, or the queue, uncovers nothing. */
  lemma CoverMore(l: Line, l': Line, pending: seq<Item>, pending': seq<Item>)
    requires l.running == l'.running && l.toStub <= l'.toStub && l.toClient <= l'.toClient
    requires pending != [] ==> pending' != []
    ensures Covered(l, pending) ==> Covered(l', pending')
  {
  }

  lemma GetAckKeeps(s: State, t: Tid, k: Know, obliging: bool)
    requires Owns(s, s.Get(t), k, obliging) && AllStops(s.pending)
    requires s.Get(t).prog.GetAck? && s.line.toClient != []
    ensures var s' := StepOf(s, t, true);
      OwnerKept(s, s', t, if s'.Get(t).prog == s.Get(t).prog then k else AfterAckRead(k), obliging)
  {
    var items := s.line.toClient;
    var s' := StepOf(s, t, true);
    if items[0].Ack? {
      assert s.line.toStub == [] by {
        assert s.line.toStub != [] ==> AllStops(items);
      }
      var xs := items[1..];
      if k.phase.op.Replies() {
        CoverAfterAck(s.line, s'.line, s.pending);
      } else if xs != [] {
        assert s'.line.toClient[0].Stop?;
      }
      assert s'.Get(t).prog != s.Get(t).prog;
    } else {
      assert items[0].Stop?;
      assert Sent(s'.line, s.Get(t).serial, k.phase.op, k.halting, k.still);
    }
  }

  lemma CoverAfterAck(l: Line, l': Line, pending: seq<Item>)
    requires l.toClient != [] && !l.toClient[0].Stop? && l' == l.(toClient := l.toClient[1..])
    ensures Covered(l, pending) ==> Covered(l', pending)
  {
  }

  lemma GetReplyKeeps(s: State, t: Tid, k: Know, obliging: bool)
    requires Owns(s, s.Get(t), k, obliging) && AllStops(s.pending)
    requires s.Get(t).prog.GetReply? && Enabled(s, Step(t, true))
    ensures OwnerKept(s, StepOf(s, t, true), t, k.(phase := Free, still := k.halting), obliging)
  {
    var s' := StepOf(s, t, true);
    assert NextPacket(s.line.toClient) == 0;
    CoverAfterAck(s.line, s'.line, s.pending);
  }

  lemma TakeKeeps(s: State, t: Tid, k: Know, obliging: bool)
    requires Owns(s, s.Get(t), k, obliging) && AllStops(s.pending) && PacketReady(s)
    requires s.Get(t).prog.Wait? || s.Get(t).prog.Sweep?
    ensures OwnerKept(s, StepOf(s, t, true), t, Learned(k, s.Get(t).prog, true, false), obliging)
  {
    hide Sent, AfterSend, AfterAckRead;
    ProgShapes(StepOf(s, t, true).Get(t).prog, Learned(k, s.Get(t).prog, true, false));
    assert s.line.toClient != [] ==> NextPacket(s.line.toClient) == 0;
    var (s', item) := TakePacket(s);
    assert item.Stop?;
  }

  /** Steps on the queue alone. */
  lemma QueueKeeps(s: State, t: Tid, k: Know, obliging: bool)
    requires Owns(s, s.Get(t), k, obliging) && AllStops(s.pending) && Enabled(s, Step(t, true))
    requires s.Get(t).prog.Clear? || s.Get(t).prog.Requeue?
    ensures OwnerKept(s, StepOf(s, t, true), t, Learned(k, s.Get(t).prog, true, false), obliging)
  {
    hide Sent, Quiet;
    ProgShapes(StepOf(s, t, true).Get(t).prog, Learned(k, s.Get(t).prog, true, false));
  }

  /** Steps on the session state alone. */
  lemma ModeKeeps(s: State, t: Tid, k: Know, obliging: bool)
    requires Owns(s, s.Get(t), k, obliging) && AllStops(s.pending) && Enabled(s, Step(t, true))
    requires var p := s.Get(t).prog; p.MarkPaused? || p.MarkRunning? || p.MarkError? || p.IfRunning?
    ensures OwnerKept(s, StepOf(s, t, true), t, Learned(k, s.Get(t).prog, true, s.mode.Running?), obliging)
  {
    hide Sent, Quiet, Covered;
    ProgShapes(StepOf(s, t, true).Get(t).prog, Learned(k, s.Get(t).prog, true, s.mode.Running?));
  }

  /** Steps on the lock, and branches. */
  lemma BranchKeeps(s: State, t: Tid, taken: bool, k: Know, obliging: bool)
    requires Owns(s, s.Get(t), k, obliging) && AllStops(s.pending) && Enabled(s, Step(t, taken))
    requires var p := s.Get(t).prog;
      p.Acquire? || (p.Release? && k.depth > 1) || ((p.Wait? || p.Sweep?) && !taken)
      || p.Choose? || p.Claim? || p.OnReply?
    ensures OwnerKept(s, StepOf(s, t, taken), t, Learned(k, s.Get(t).prog, taken, false),
      obliging && Obliges(s, Step(t, taken)))
  {
    hide Sent, Quiet, Covered;
    ProgShapes(StepOf(s, t, taken).Get(t).prog, Learned(k, s.Get(t).prog, taken, false));
  }

  /** A local step never runs into the middle of an exchange. */
  lemma ProgShapes(p: Prog, k: Know)
    requires k.Inside? && Disciplined(p, k)
    ensures p.GetAck? ==> k.phase.AwaitAck?
    ensures p.GetReply? ==> k.phase.AwaitReply?
  {
  }

  lemma InterruptKeeps(s: State, t: Tid, k: Know, obliging: bool)
    requires Owns(s, s.Get(t), k, obliging) && AllStops(s.pending)
    requires s.Get(t).prog.Interrupt?
    ensures OwnerKept(s, StepOf(s, t, true), t, Learned(k, s.Get(t).prog, true, false), obliging)
  {
    var s' := StepOf(s, t, true);
    assert s'.line.toStub[|s'.line.toStub| - 1].Break?;
    ProgShapes(s'.Get(t).prog, Learned(k, s.Get(t).prog, true, false));
  }

  /** After a step the thread in the lock holds a stop only if it has just taken one, or held one and
      has neither passed it on nor discarded stops since. */
  predicate HoldingFrom(k': Know, k: Know, p: Prog, taken: bool) {
    k'.Inside? && k'.holding ==>
      (p.Wait? && taken) || (k.Inside? && k.holding && !p.Sweep? && !p.Clear? && !p.Requeue?)
  }

  lemma OwnerOf(s: State, t: Tid, k: Know, obliging: bool)
    requires Inv(s, k, obliging) && s.Get(t).depth > 0
    ensures Owns(s, s.Get(t), k, obliging) && AllStops(s.pending)
  {
  }

  lemma SameEitherWay(s: State, t: Tid, taken: bool)
    requires Enabled(s, Step(t, taken))
    ensures var p := s.Get(t).prog;
      p.Wait? || p.Sweep? || p.Choose? || p.OnReply? || p.GetAck? || p.GetReply?
      || (Enabled(s, Step(t, true)) && StepOf(s, t, taken) == StepOf(s, t, true))
  {
  }

  lemma LastRelease(s: State, t: Tid, k: Know, obliging: bool)
    requires Inv(s, k, obliging) && s.Get(t).prog.Release? && s.Get(t).depth > 0 && k.Inside? && k.depth == 1
    ensures Inv(StepOf(s, t, true), k, obliging)
  {
  }

  /** The steps of an exchange, and the interrupt. */
  lemma ExchangeLearns(s: State, t: Tid, k: Know, obliging: bool) returns (k': Know)
    requires Owns(s, s.Get(t), k, obliging) && AllStops(s.pending) && Enabled(s, Step(t, true))
    requires Exchanges(s.Get(t).prog)
    ensures OwnerKept(s, StepOf(s, t, true), t, k', obliging) && k'.Inside? && k'.holding == k.holding
  {
    hide OwnerKept, AllStops, Disciplined, StepOf;
    var p, s' := s.Get(t).prog, StepOf(s, t, true);
    if p.Send? {
      SendKeeps(s, t, k, obliging);
      k' := AfterSend(k, p.op);
    } else if p.GetAck? {
      GetAckKeeps(s, t, k, obliging);
      k' := if s'.Get(t).prog == p then k else AfterAckRead(k);
    } else if p.GetReply? {
      GetReplyKeeps(s, t, k, obliging);
      k' := k.(phase := Free, still := k.halting);
    } else {
      InterruptKeeps(s, t, k, obliging);
      k' := Learned(k, p, true, false);
    }
  }

  lemma LearnedHolds(p: Prog, k: Know, taken: bool, running: bool)
    requires k.Inside? && !p.Send? && !p.GetAck?
    ensures HoldingFrom(Learned(k, p, taken, running), k, p, taken)
  {
  }

  predicate Exchanges(p: Prog) { p.Send? || p.GetAck? || p.GetReply? || p.Interrupt? }

  /** The steps outside exchanges. */
  lemma OtherKeeps(s: State, t: Tid, taken: bool, k: Know, obliging: bool)
    requires Owns(s, s.Get(t), k, obliging) && AllStops(s.pending) && Enabled(s, Step(t, taken))
    requires !Exchanges(s.Get(t).prog) && !(s.Get(t).prog.Release? && k.depth == 1)
    ensures OwnerKept(s, StepOf(s, t, taken), t, Learned(k, s.Get(t).prog, taken, s.mode.Running?),
      obliging && Obliges(s, Step(t, taken)))
  {
    SameEitherWay(s, t, taken);
    var p := s.Get(t).prog;
    RunningMatters(k, p, taken, s.mode.Running?);
    assert p.OnReply? || Obliges(s, Step(t, taken));
    hide OwnerKept, AllStops, StepOf, Holds, Disciplined, Learned, Obliges, PacketReady;
    if (p.Wait? || p.Sweep?) && taken {
      TakeKeeps(s, t, k, obliging);
    } else if p.Clear? || p.Requeue? {
      QueueKeeps(s, t, k, obliging);
    } else if p.MarkPaused? || p.MarkRunning? || p.MarkError? || p.IfRunning? {
      ModeKeeps(s, t, k, obliging);
    } else {
      BranchKeeps(s, t, taken, k, obliging);
    }
  }

  /** Any step of the thread in the lock but its last release. */
  lemma OwnerLearns(s: State, t: Tid, taken: bool, k: Know, obliging: bool) returns (k': Know)
    requires Owns(s, s.Get(t), k, obliging) && AllStops(s.pending)
    requires Enabled(s, Step(t, taken)) && Prompt(s, Step(t, taken)) && !(s.Get(t).prog.Release? && k.depth == 1)
    ensures OwnerKept(s, StepOf(s, t, taken), t, k', obliging && Obliges(s, Step(t, taken)))
    ensures HoldingFrom(k', k, s.Get(t).prog, taken)
  {
    var p := s.Get(t).prog;
    hide OwnerKept, AllStops, StepOf, Holds, Disciplined, Learned;
    if Exchanges(p) {
      SameEitherWay(s, t, taken);
      k' := ExchangeLearns(s, t, k, obliging);
    } else {
      k' := Learned(k, p, taken, s.mode.Running?);
      LearnedHolds(p, k, taken, s.mode.Running?);
      OtherKeeps(s, t, taken, k, obliging);
    }
  }

  /** What is learned depends on the branch and the session state only where the step does. */
  lemma RunningMatters(k: Know, p: Prog, taken: bool, running: bool)
    ensures !p.IfRunning? ==> Learned(k, p, taken, running) == Learned(k, p, taken, false)
    ensures p.Wait? || p.OnReply? || Learned(k, p, taken, running) == Learned(k, p, true, running)
  {
  }

  /** Any step of the thread in the lock. */
  lemma OwnerStep(s: State, t: Tid, taken: bool, k: Know, obliging: bool) returns (k': Know)
    requires Inv(s, k, obliging) && Enabled(s, Step(t, taken)) && Prompt(s, Step(t, taken)) && s.Get(t).depth > 0
    ensures Inv(StepOf(s, t, taken), k', obliging && Obliges(s, Step(t, taken)))
    ensures HoldingFrom(k', k, s.Get(t).prog, taken)
  {
    OwnerOf(s, t, k, obliging);
    hide Owns, OwnerKept, AllStops, Disciplined, StepOf, Inv;
    var p, s' := s.Get(t).prog, StepOf(s, t, taken);
    if p.Release? && k.depth == 1 {
      SameEitherWay(s, t, taken);
      LastRelease(s, t, k, obliging);
      k' := k;
    } else {
      k' := OwnerLearns(s, t, taken, k, obliging);
      OwnerKeepsInv(s, s', t, k, k', obliging, obliging && Obliges(s, Step(t, taken)));
    }
  }

  lemma OwnerKeepsInv(s: State, s': State, t: Tid, k: Know, k': Know, obliging: bool, obliging': bool)
    requires Inv(s, k, obliging) && s.Get(t).depth > 0 && s'.Get(t).depth > 0
    requires OwnerKept(s, s', t, k', obliging')
    ensures Inv(s', k', obliging')
  {
    hide Holds, Disciplined;
  }

  /** A thread outside the lock can only enter it or look at the session state. */
  lemma OutsideStep(s: State, t: Tid, taken: bool, k: Know, obliging: bool) returns (k': Know)
    requires Inv(s, k, obliging) && Enabled(s, Step(t, taken)) && s.Get(t).depth == 0
    ensures Inv(StepOf(s, t, taken), k', obliging) && k' == if s.Get(t).prog.Acquire? then ENTERED else k
  {
    var p := s.Get(t).prog;
    k' := if p.Acquire? then ENTERED else k;
    if p.Acquire? {
      ProgShapes(p.next, ENTERED);
    }
  }

  lemma StubStep(s: State, m: StubMove, k: Know, obliging: bool)
    requires Inv(s, k, obliging) && CanMove(s.line, m)
    ensures Inv(Next(s, Stub(m)), k, obliging && Heeds(s.line, m))
  {
    var s' := Next(s, Stub(m));
    if Heeds(s.line, m) && Covered(s.line, s.pending) {
      CoveredKept(s.line, s.pending, m);
    }
    if Quiet(s.line) {
      QuietKept(s.line, m);
    }
    var owner := if s.tool.depth > 0 then s.tool else s.watcher;
    if owner.depth > 0 {
      StubKeepsOwner(s, owner, m, k, obliging);
    }
  }

  lemma StubKeepsOwner(s: State, th: Thread, m: StubMove, k: Know, obliging: bool)
    requires Owns(s, th, k, obliging) && CanMove(s.line, m)
    ensures Owns(Next(s, Stub(m)), th, k, obliging && Heeds(s.line, m))
  {
    hide Sent, Covered, Moved, Disciplined;
    if Heeds(s.line, m) && Covered(s.line, s.pending) {
      CoveredKept(s.line, s.pending, m);
    }
    match k.phase
    case Free =>
      QuietKept(s.line, m);
      GoesOnKept(s.line, s.cpu, m);
    case AwaitAck(op) =>
      SentKept(s.line, th.serial, op, k.halting, k.still, m);
      GoesOnServed(s.line, th.serial, op, k.halting, k.still, s.cpu, m);
    case AwaitReply => AcknowledgedKept(s.line, th.serial, k.halting, m);
  }

  lemma GoesOnKept(l: Line, cpu: CpuEvent, m: StubMove)
    requires CanMove(l, m)
    ensures var did := Caused(l, m); GoesOn(l, cpu) ==> GoesOn(Moved(l, m), if did == [] then cpu else did[0])
  {
  }

  lemma GoesOnServed(l: Line, n: nat, op: Op, halting: bool, still: bool, cpu: CpuEvent, m: StubMove)
    requires CanMove(l, m) && Sent(l, n, op, halting, still)
    requires op.Continue? && l.toStub == [] ==> GoesOn(l, cpu)
    ensures var did := Caused(l, m);
      op.Continue? && Moved(l, m).toStub == [] ==> GoesOn(Moved(l, m), if did == [] then cpu else did[0])
  {
    hide Served;
  }

  // ---- whole runs ----

  predicate Possible(s: State, moves: seq<Move>)
    decreases |moves|
  {
    moves != [] ==> Enabled(s, moves[0]) && Possible(Next(s, moves[0]), moves[1..])
  }

  function Run(s: State, moves: seq<Move>): State
    requires Possible(s, moves)
    decreases |moves|
  {
    if moves == [] then s else Run(Next(s, moves[0]), moves[1..])
  }

  /** Threads start only disciplined programs; everything else is up to the scheduler and the stub. */
  predicate Lawful(move: Move) { move.Start? ==> Disciplined(move.prog, Outside) }

  /** Every exchange of the run is answered in time. */
  predicate PromptAll(s: State, moves: seq<Move>)
    requires Possible(s, moves)
    decreases |moves|
  {
    moves != [] ==> Prompt(s, moves[0]) && PromptAll(Next(s, moves[0]), moves[1..])
  }

  predicate LawfulRun(s: State, moves: seq<Move>) {
    Possible(s, moves) && PromptAll(s, moves) && forall i :: 0 <= i < |moves| ==> Lawful(moves[i])
  }

  /** The stub answers every interrupt of the run, and no register read of the watcher raises. */
  predicate ObligesAll(s: State, moves: seq<Move>)
    requires Possible(s, moves)
    decreases |moves|
  {
    moves != [] ==> Obliges(s, moves[0]) && ObligesAll(Next(s, moves[0]), moves[1..])
  }

  /** Both threads idle, only stop replies anywhere, and none lost so far. */
  predicate Init(s: State) {
    && s.tool.prog.Done? && s.watcher.prog.Done? && s.tool.depth == 0 && s.watcher.depth == 0
    && Quiet(s.line) && AllStops(s.pending) && s.delivered == []
    && (s.mode.Running? ==> Covered(s.line, s.pending))
  }

  /** What the thread in the lock still holds after a move. */
  predicate StillHolds(s: State, move: Move, k: Know, k': Know) {
    if move.Step? && s.Get(move.t).depth > 0 then HoldingFrom(k', k, s.Get(move.t).prog, move.taken)
    else k' == if move.Step? && s.Get(move.t).prog.Acquire? then ENTERED else k
  }

  lemma StepKeeps(s: State, move: Move, k: Know, obliging: bool) returns (k': Know)
    requires Inv(s, k, obliging) && Enabled(s, move) && Lawful(move) && Prompt(s, move)
    ensures Inv(Next(s, move), k', obliging && Obliges(s, move))
    ensures StillHolds(s, move, k, k')
  {
    k' := k;
    match move
    case Stub(m) => StubStep(s, m, k, obliging);
    case Start(_, _) =>
    case Step(t, taken) =>
      if s.Get(t).depth > 0 {
        k' := OwnerStep(s, t, taken, k, obliging);
      } else {
        k' := OutsideStep(s, t, taken, k, obliging);
      }
  }

  lemma LawfulTail(s: State, moves: seq<Move>)
    requires LawfulRun(s, moves) && moves != []
    ensures Enabled(s, moves[0]) && Lawful(moves[0]) && Prompt(s, moves[0]) && LawfulRun(Next(s, moves[0]), moves[1..])
  {
    hide Enabled, Next, Lawful, Prompt;
    assert Possible(Next(s, moves[0]), moves[1..]);
    assert Lawful(moves[0]);
  }

  lemma {:induction false} RunKeeps(s: State, moves: seq<Move>, k: Know, obliging: bool) returns (k': Know)
    requires Inv(s, k, obliging) && LawfulRun(s, moves)
    ensures Inv(Run(s, moves), k', obliging && ObligesAll(s, moves))
    decreases |moves|
  {
    if moves == [] {
      k' := k;
    } else {
      LawfulTail(s, moves);
      var k1 := StepKeeps(s, moves[0], k, obliging);
      hide Inv, Next, Obliges, Enabled, Prompt, Lawful, LawfulRun;
      k' := RunKeeps(Next(s, moves[0]), moves[1..], k1, obliging && Obliges(s, moves[0]));
    }
  }

  predicate MidExchange(th: Thread) { th.prog.GetAck? || th.prog.GetReply? }

  /** Reply pairing survives concurrency: in every reachable state every command that has a reply
      has its own, and at most one thread is between sending a command and its reply. */
  lemma ReplyPairing(s: State, moves: seq<Move>)
    requires Init(s) && LawfulRun(s, moves)
    ensures Paired(Run(s, moves))
    ensures !(MidExchange(Run(s, moves).tool) && MidExchange(Run(s, moves).watcher))
    ensures forall t :: MidExchange(Run(s, moves).Get(t)) ==> Run(s, moves).Get(t).depth > 0
  {
    var k := RunKeeps(s, moves, Outside, true);
  }

  /** No lost stop: whenever the lock is free and the session says RUNNING, the CPU runs or a stop
      reply is still to be read or an interrupt still to be answered. */
  lemma NoLostStop(s: State, moves: seq<Move>)
    requires Init(s) && LawfulRun(s, moves) && ObligesAll(s, moves)
    ensures var e := Run(s, moves);
      e.tool.depth == 0 && e.watcher.depth == 0 && e.mode.Running? ==> Covered(e.line, e.pending)
  {
    var k := RunKeeps(s, moves, Outside, true);
  }

  /** Claims about the session that do not depend on the stub. */
  predicate Stands(fact: Fact, e: State) {
    match fact
    case Fenced => Still(e.line) && e.pending == [] && !e.mode.Running?
    case Nested => !e.mode.Running?
    case Restored => e.mode.Running? && GoesOn(e.line, e.cpu)
    case WentOn => GoesOn(e.line, e.cpu)
  }

  /** Every claim a program makes stands when a run gets there.  The fence: whenever the protected block of
      `_safe_to_modify` starts after an interrupt, the CPU is halted, nothing is in flight in either
      direction, no stop is queued and the session is not RUNNING, whatever stops were in flight before.
      A nested use finds the session not RUNNING; the outermost one leaves it RUNNING, and the CPU told to go
      on, so that it runs unless it has run into a breakpoint since; and so does the watcher behind a stop that
      it has logged or dropped. */
  lemma ClaimsStand(s: State, moves: seq<Move>, t: Tid)
    requires Init(s) && LawfulRun(s, moves) && Run(s, moves).Get(t).prog.Claim?
    ensures var e := Run(s, moves);
      Stands(e.Get(t).prog.fact, e) && e.Get(t).depth > 0 && e.Get(Other(t)).depth == 0
  {
    var k := RunKeeps(s, moves, Outside, true);
    ClaimStands(Run(s, moves), t, k, ObligesAll(s, moves));
  }

  lemma ClaimStands(e: State, t: Tid, k: Know, obliging: bool)
    requires Inv(e, k, obliging) && e.Get(t).prog.Claim?
    ensures Stands(e.Get(t).prog.fact, e) && e.Get(t).depth > 0 && e.Get(Other(t)).depth == 0
    ensures e.Get(t).prog.fact.Restored? && obliging ==> Covered(e.line, e.pending)
  {
    hide Covered;
  }

  /** When the outermost use of `_safe_to_modify` is about to leave the lock after a fence, no stop is lost. */
  lemma RestoredCovered(s: State, moves: seq<Move>, t: Tid)
    requires Init(s) && LawfulRun(s, moves) && ObligesAll(s, moves)
    requires Run(s, moves).Get(t).prog.Claim? && Run(s, moves).Get(t).prog.fact.Restored?
    ensures Run(s, moves).mode.Running? && Covered(Run(s, moves).line, Run(s, moves).pending)
  {
    var k := RunKeeps(s, moves, Outside, true);
    ClaimStands(Run(s, moves), t, k, true);
  }

  /** Runs are extended at the end. */
  lemma {:induction false} RunSnoc(s: State, moves: seq<Move>, m: Move)
    requires Possible(s, moves) && Enabled(Run(s, moves), m)
    ensures Possible(s, moves + [m]) && Run(s, moves + [m]) == Next(Run(s, moves), m)
    ensures ObligesAll(s, moves + [m]) <==> ObligesAll(s, moves) && Obliges(Run(s, moves), m)
    ensures PromptAll(s, moves + [m]) <==> PromptAll(s, moves) && Prompt(Run(s, moves), m)
    decreases |moves|
  {
    hide Enabled, Next, Obliges, Prompt;
    if moves == [] {
    } else {
      assert (moves + [m])[1..] == moves[1..] + [m];
      RunSnoc(Next(s, moves[0]), moves[1..], m);
    }
  }
}
