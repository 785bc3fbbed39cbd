/** Runs on which the guarantees of the shared line fail, each outside one of their hypotheses: a stub that
    ignores interrupts while halted, one that answers a register read with an error, an exchange that is given
    up halfway, by the watcher or by a tool, a command sent without the lock, a stop put back behind another
    one. */
module Limits {
  import opened Wire
  import opened Interleaving
  import opened Tools
  import opened Deliveries = Delivery
  import Registry

  lemma Extend(s: State, moves: seq<Move>, e: State, m: Move) returns (moves': seq<Move>, e': State)
    requires Possible(s, moves) && Run(s, moves) == e && Enabled(e, m)
    ensures moves' == moves + [m] && e' == Next(e, m) && Possible(s, moves') && Run(s, moves') == e'
    ensures ObligesAll(s, moves') <==> ObligesAll(s, moves) && Obliges(e, m)
    ensures PromptAll(s, moves') <==> PromptAll(s, moves) && Prompt(e, m)
    ensures AllLawful(moves) && Lawful(m) ==> AllLawful(moves')
    ensures AllHeed(moves) && (m.Stub? && m.m.Serve? ==> m.m.heeds) ==> AllHeed(moves')
  {
    RunSnoc(s, moves, m);
    moves', e' := moves + [m], Next(e, m);
  }

  predicate AllLawful(moves: seq<Move>) { forall i :: 0 <= i < |moves| ==> Lawful(moves[i]) }

  predicate AllHeed(moves: seq<Move>) {
    forall i :: 0 <= i < |moves| && moves[i].Stub? && moves[i].m.Serve? ==> moves[i].m.heeds
  }

  const IDLE := Thread(Done, 0, 0, Ack, "")

  function Playing(mode: Mode): State {
    var cpu := if mode.Running? then Restarted else Interrupted;
    State(Line(mode.Running?, [], [], {}), [], mode, IDLE, IDLE, 0, [], cpu)
  }

  /** The CPU has stopped and its stop reply is queued. */
  function Stopped(mode: Mode): State {
    State(Line(false, [], [], {}), [Stop("T05")], mode, IDLE, IDLE, 0, [], Fired)
  }

  predicate Lost(s: State) {
    s.tool.depth == 0 && s.watcher.depth == 0 && s.mode.Running? && !Covered(s.line, s.pending)
  }

  /** The pause tool once it has drained the stops: two interrupts with a wait after each. */
  function Interrupting(): Prog {
    var took := MarkPaused(Unlock());
    Interrupt(Wait(took, Interrupt(Wait(took, Unlock()))))
  }

  /** The state of a pause on a CPU that halted before the tool's heartbeat was served. */
  function PauseAt(prog: Prog, line: Line, pending: seq<Item>, delivered: seq<Delivery>): State {
    var reply := if delivered == [] then "" else "QC1";
    State(line, pending, Running, Thread(prog, 1, 0, Ack, reply), IDLE, 1, delivered, Fired)
  }

  lemma PauseProbes(s: State) returns (moves: seq<Move>)
    requires s == Playing(Running)
    ensures LawfulRun(s, moves)
    ensures Run(s, moves) == PauseAt(Probing(),
      Line(false, [], [Stop("T05"), Ack, Reply(0, "QC1")], {}), [], [])
  {
    PauseDisciplined();
    hide Disciplined, ObligesAll;
    var e := s;
    moves := [];
    moves, e := Extend(s, moves, e, Start(Tool, Pause()));
    moves, e := Extend(s, moves, e, Step(Tool, true));
    moves, e := Extend(s, moves, e, Stub(Hit("T05")));
    moves, e := Extend(s, moves, e, Step(Tool, true));
    moves, e := Extend(s, moves, e, Stub(Serve("QC1", true)));
    assert e.line.toClient == [Stop("T05"), Ack, Reply(0, "QC1")];
  }

  function Failed(): Prog { MarkError(Unlock()) }

  function Probing(): Prog { GetAck(GetReply(Draining(), Failed()), Failed()) }

  function Draining(): Prog { Choose(DrainStops(Interrupting()), MarkError(Unlock())) }

  lemma PauseProbed(s: State, before: seq<Move>, e0: State) returns (moves: seq<Move>)
    requires LawfulRun(s, before) && Run(s, before) == e0
    requires e0 == PauseAt(Probing(),
      Line(false, [], [Stop("T05"), Ack, Reply(0, "QC1")], {}), [], [])
    ensures LawfulRun(s, moves)
    ensures Run(s, moves) == PauseAt(Draining(), Line(false, [], [], {}), [Stop("T05")],
      [Delivery(0, Reply(0, "QC1"))])
  {
    hide Disciplined, Moved, ObligesAll;
    var e := e0;
    moves := before;
    moves, e := Extend(s, moves, e, Step(Tool, true));
    assert e.line.toClient == [Ack, Reply(0, "QC1")] && e.pending == [Stop("T05")];
    moves, e := Extend(s, moves, e, Step(Tool, true));
    assert e.line.toClient == [Reply(0, "QC1")];
    moves, e := Extend(s, moves, e, Step(Tool, true));
    assert e.line.toClient == [] && e.delivered == [Delivery(0, Reply(0, "QC1"))];
  }

  lemma PauseDrains(s: State, before: seq<Move>, e0: State) returns (moves: seq<Move>)
    requires LawfulRun(s, before) && Run(s, before) == e0
    requires e0 == PauseAt(Draining(), Line(false, [], [], {}), [Stop("T05")], [Delivery(0, Reply(0, "QC1"))])
    ensures LawfulRun(s, moves)
    ensures Run(s, moves) == PauseAt(Interrupting(), Line(false, [], [], {}), [], [Delivery(0, Reply(0, "QC1"))])
  {
    hide Disciplined, Moved, ObligesAll;
    var e := e0;
    moves := before;
    moves, e := Extend(s, moves, e, Step(Tool, true));
    moves, e := Extend(s, moves, e, Step(Tool, true));
    moves, e := Extend(s, moves, e, Step(Tool, false));
  }

  /** `pause` on a stub that drops an interrupt that finds the CPU halted: a breakpoint hits first,
      its stop reply is drained, both interrupts go unanswered, and `pause` raises leaving the session
      RUNNING over a halted CPU with no stop reply left anywhere. */
  lemma DeafStubLosesStop() returns (moves: seq<Move>)
    ensures Init(Playing(Running)) && LawfulRun(Playing(Running), moves)
    ensures Lost(Run(Playing(Running), moves)) && !ObligesAll(Playing(Running), moves)
  {
    var s := Playing(Running);
    moves := PauseProbes(s);
    moves := PauseProbed(s, moves, Run(s, moves));
    moves := PauseDrains(s, moves, Run(s, moves));
    moves := PauseInterrupts(s, moves, Run(s, moves));
    moves := PauseGivesUp(s, moves, Run(s, moves));
  }

  lemma PauseGivesUp(s: State, before: seq<Move>, e0: State) returns (moves: seq<Move>)
    requires s == Playing(Running) && LawfulRun(s, before) && !ObligesAll(s, before) && Run(s, before) == e0
    requires e0 == PauseAt(Interrupt(Wait(MarkPaused(Unlock()), Unlock())), Line(false, [], [], {}), [],
      [Delivery(0, Reply(0, "QC1"))])
    ensures LawfulRun(s, moves) && !ObligesAll(s, moves) && Lost(Run(s, moves))
  {
    hide Disciplined, Possible, Run, ObligesAll, PromptAll, AllLawful, AllHeed;
    var e := e0;
    moves := before;
    moves, e := Extend(s, moves, e, Step(Tool, true));
    moves, e := Extend(s, moves, e, Stub(Serve("T02", false)));
    moves, e := Extend(s, moves, e, Step(Tool, false));
    moves, e := Extend(s, moves, e, Step(Tool, true));
    assert e.line == Line(false, [], [], {}) && e.pending == [];
  }

  /** The first interrupt goes unanswered. */
  lemma PauseInterrupts(s: State, before: seq<Move>, e0: State) returns (moves: seq<Move>)
    requires LawfulRun(s, before) && Run(s, before) == e0
    requires e0 == PauseAt(Interrupting(), Line(false, [], [], {}), [], [Delivery(0, Reply(0, "QC1"))])
    ensures LawfulRun(s, moves) && !ObligesAll(s, moves)
    ensures Run(s, moves) == PauseAt(Interrupt(Wait(MarkPaused(Unlock()), Unlock())), Line(false, [], [], {}), [],
      [Delivery(0, Reply(0, "QC1"))])
  {
    hide Disciplined, Possible, Run, ObligesAll;
    moves := before;
    var e := e0;
    moves, e := Extend(s, moves, e, Step(Tool, true));
    moves, e := Extend(s, moves, e, Stub(Serve("T02", false)));
    moves, e := Extend(s, moves, e, Step(Tool, false));
    assert e.line == Line(false, [], [], {});
  }

  // ---- the watcher's register read ----

  function Continued(): Prog { WentOnBehind() }

  /** The watcher between sending `g` and its ack. */
  function Asking(): Prog { GetAck(GetReply(OnReply(Continued(), Unlock()), Continued()), Continued()) }

  /** The watcher takes the queued stop and asks for the registers. */
  function Asked(s: State): State {
    s.(line := Line(false, [Ask(0, Query("g"))], [], {}), pending := [], nextSerial := 1,
       watcher := Thread(Asking(), 1, 0, Stop("T05"), ""))
  }

  lemma IterationIs()
    ensures WatcherIteration([Query("g")]) == Acquire(Wait(Choose(Requeue(MarkPaused(Unlock())),
      Send(Query("g"), Asking())), Unlock()))
  {
    assert Reads([], Continued()) == Continued();
    assert [Query("g")][1..] == [];
  }

  function Judging(): Prog { Choose(Requeue(MarkPaused(Unlock())), Send(Query("g"), Asking())) }

  lemma WatcherTakes(mode: Mode) returns (moves: seq<Move>)
    ensures LawfulRun(Stopped(mode), moves) && ObligesAll(Stopped(mode), moves) && AllHeed(moves)
    ensures Run(Stopped(mode), moves)
      == Stopped(mode).(pending := [], watcher := Thread(Judging(), 1, 0, Stop("T05"), ""))
  {
    var s := Stopped(mode);
    WatcherDisciplined([Query("g")]);
    IterationIs();
    var iteration := WatcherIteration([Query("g")]);
    hide Disciplined, WatcherIteration, Asking;
    var e := s;
    moves := [];
    moves, e := Extend(s, moves, e, Start(Watcher, iteration));
    hide Possible, Run, ObligesAll, PromptAll, AllLawful, AllHeed;
    moves, e := Extend(s, moves, e, Step(Watcher, true));
    moves, e := Extend(s, moves, e, Step(Watcher, true));
    LawfulParts(s, moves);
  }

  lemma WatcherAsks(mode: Mode) returns (moves: seq<Move>)
    ensures LawfulRun(Stopped(mode), moves) && ObligesAll(Stopped(mode), moves) && AllHeed(moves)
    ensures Run(Stopped(mode), moves) == Asked(Stopped(mode))
  {
    var s := Stopped(mode);
    moves := WatcherTakes(mode);
    LawfulParts(s, moves);
    hide Disciplined, Asking, Possible, Run, ObligesAll, PromptAll, AllLawful, AllHeed, LawfulRun;
    var e := s.(pending := [], watcher := Thread(Judging(), 1, 0, Stop("T05"), ""));
    moves, e := Extend(s, moves, e, Step(Watcher, false));
    moves, e := Extend(s, moves, e, Step(Watcher, true));
    LawfulParts(s, moves);
  }

  /** An error reply to `g` kills the watcher: on a lawful and prompt run, on a stub that answers every
      interrupt, the stop it had taken is lost. */
  lemma ErrorReplyLosesStop() returns (moves: seq<Move>)
    ensures Init(Stopped(Running)) && LawfulRun(Stopped(Running), moves) && AllHeed(moves)
    ensures Lost(Run(Stopped(Running), moves)) && !ObligesAll(Stopped(Running), moves)
  {
    var s := Stopped(Running);
    moves := WatcherAsks(Running);
    LawfulParts(s, moves);
    moves := ErrorReplied(s, moves);
    hide Disciplined, Possible, Run, ObligesAll, PromptAll, AllLawful, AllHeed, LawfulRun;
    var e := Replied(s);
    moves, e := Extend(s, moves, e, Step(Watcher, false));
    moves, e := Extend(s, moves, e, Step(Watcher, true));
    LawfulParts(s, moves);
  }

  function Replied(s: State): State {
    s.(line := Line(false, [], [], {}), pending := [], nextSerial := 1, delivered := [Delivery(0, Reply(0, "E01"))],
       watcher := Thread(OnReply(Continued(), Unlock()), 1, 0, Stop("T05"), "E01"))
  }

  lemma ErrorReplied(s: State, before: seq<Move>) returns (moves: seq<Move>)
    requires s == Stopped(Running) && Possible(s, before) && Run(s, before) == Asked(s)
    requires AllLawful(before) && AllHeed(before) && PromptAll(s, before)
    ensures Possible(s, moves) && AllLawful(moves) && AllHeed(moves) && PromptAll(s, moves)
    ensures Run(s, moves) == Replied(s)
  {
    hide Disciplined, Possible, Run, ObligesAll, PromptAll, AllLawful, AllHeed;
    moves := before;
    var e := Asked(s);
    moves, e := Extend(s, moves, e, Stub(Serve("E01", true)));
    assert e.line == Line(false, [], [Ack, Reply(0, "E01")], {});
    moves, e := Extend(s, moves, e, Step(Watcher, true));
    assert e.line.toClient == [Reply(0, "E01")];
    moves, e := Extend(s, moves, e, Step(Watcher, true));
    assert e.line.toClient == [];
  }

  lemma LawfulParts(s: State, moves: seq<Move>)
    requires Possible(s, moves)
    ensures LawfulRun(s, moves) <==> PromptAll(s, moves) && AllLawful(moves)
  {
  }

  /** The watcher has given up on `g` and continued; the stub has served both. */
  function Continuing(s: State): State {
    s.(line := Line(true, [], [Reply(0, "00"), Ack], {}), pending := [], nextSerial := 2,
       watcher := Thread(Done, 0, 1, Stop("T05"), ""), cpu := Restarted)
  }

  /** The watcher awaits the ack of its `c`; the stub has served both. */
  function BothServed(s: State): State {
    Asked(s).(line := Line(true, [], [Ack, Reply(0, "00"), Ack], {}), nextSerial := 2,
              watcher := Thread(GetAck(Claim(WentOn, Unlock()), Unlock()), 1, 1, Stop("T05"), ""), cpu := Restarted)
  }

  lemma WatcherGivesUp(s: State, before: seq<Move>) returns (moves: seq<Move>)
    requires s == Stopped(Running) && Possible(s, before) && Run(s, before) == Asked(s)
    requires AllLawful(before) && ObligesAll(s, before)
    ensures Possible(s, moves) && AllLawful(moves) && ObligesAll(s, moves) && !PromptAll(s, moves)
    ensures Run(s, moves) == BothServed(s)
  {
    hide Disciplined, Possible, Run, ObligesAll, PromptAll, AllLawful, AllHeed;
    var e := Asked(s);
    moves := before;
    moves, e := Extend(s, moves, e, Step(Watcher, false));
    moves, e := Extend(s, moves, e, Step(Watcher, true));
    assert e.line.toStub == [Ask(0, Query("g")), Ask(1, Continue)];
    moves, e := Extend(s, moves, e, Stub(Serve("00", true)));
    moves, e := Extend(s, moves, e, Stub(Serve("", true)));
    assert e.line == Line(true, [], [Ack, Reply(0, "00"), Ack], {});
  }

  lemma WatcherLeaves(s: State, before: seq<Move>) returns (moves: seq<Move>)
    requires s == Stopped(Running) && Possible(s, before) && Run(s, before) == BothServed(s)
    requires AllLawful(before) && ObligesAll(s, before)
    ensures Possible(s, moves) && AllLawful(moves) && ObligesAll(s, moves)
    ensures PromptAll(s, moves) ==> PromptAll(s, before)
    ensures Run(s, moves) == Continuing(s)
  {
    hide Disciplined, Possible, Run, ObligesAll, PromptAll, AllLawful, AllHeed;
    var e := BothServed(s);
    moves := before;
    moves, e := Extend(s, moves, e, Step(Watcher, true));
    moves, e := Extend(s, moves, e, Step(Watcher, true));
    moves, e := Extend(s, moves, e, Step(Watcher, true));
  }

  /** A register read of the watcher that times out before its ack: the watcher continues the CPU and takes
      the late ack for that of its `c`; the next command then queues the late register dump as a stop, takes
      the ack of `c` for its own and a stop reply for its reply. */
  lemma LateReadBreaksPairing() returns (moves: seq<Move>)
    ensures Init(Stopped(Running)) && Possible(Stopped(Running), moves)
    ensures AllLawful(moves) && ObligesAll(Stopped(Running), moves) && !PromptAll(Stopped(Running), moves)
    ensures !Paired(Run(Stopped(Running), moves))
  {
    var s := Stopped(Running);
    moves := WatcherAsks(Running);
    moves := WatcherGivesUp(s, moves);
    moves := WatcherLeaves(s, moves);
    moves := ToolAsks(s, moves);
    moves := ToolTakesStop(s, moves, Run(s, moves));
  }

  lemma ToolAsks(s: State, before: seq<Move>) returns (moves: seq<Move>)
    requires s == Stopped(Running) && Possible(s, before) && Run(s, before) == Continuing(s)
    requires AllLawful(before) && ObligesAll(s, before)
    ensures Possible(s, moves) && AllLawful(moves) && ObligesAll(s, moves)
    ensures PromptAll(s, moves) ==> PromptAll(s, before)
    ensures Run(s, moves) == Continuing(s).(line := Line(true, [Ask(2, Query("p40"))], [Reply(0, "00"), Ack], {}),
      nextSerial := 3, tool := Thread(ToolAsking(), 1, 2, Ack, ""))
  {
    RegistersDisciplined([Query("p40")]);
    RegistersIs();
    hide Disciplined, Possible, Run, ObligesAll, PromptAll, AllLawful, AllHeed, Registers;
    var e := Continuing(s);
    moves := before;
    moves, e := Extend(s, moves, e, Start(Tool, Registers([Query("p40")])));
    moves, e := Extend(s, moves, e, Step(Tool, true));
    moves, e := Extend(s, moves, e, Step(Tool, true));
  }

  lemma RegistersIs()
    ensures Registers([Query("p40")]) == Acquire(Send(Query("p40"), ToolAsking()))
  {
    assert Commands([], Unlock()) == Unlock();
    assert [Query("p40")][1..] == [];
  }

  function ToolAsking(): Prog { GetAck(GetReply(Choose(Unlock(), Unlock()), Unlock()), Unlock()) }

  lemma ToolTakesStop(s: State, before: seq<Move>, e0: State) returns (moves: seq<Move>)
    requires Possible(s, before) && Run(s, before) == e0 && AllLawful(before) && ObligesAll(s, before)
    requires e0.line == Line(true, [Ask(2, Query("p40"))], [Reply(0, "00"), Ack], {}) && e0.delivered == []
    requires e0.tool.prog == ToolAsking()
    ensures Possible(s, moves) && AllLawful(moves) && ObligesAll(s, moves) && !Paired(Run(s, moves))
    ensures PromptAll(s, moves) ==> PromptAll(s, before)
  {
    hide Disciplined, Possible, Run, ObligesAll, PromptAll, AllLawful, AllHeed;
    var e := e0;
    moves := before;
    moves, e := Extend(s, moves, e, Step(Tool, true));
    assert e.line.toClient == [Ack];
    moves, e := Extend(s, moves, e, Step(Tool, true));
    assert e.line.toClient == [];
    moves, e := Extend(s, moves, e, Stub(Hit("T05")));
    assert e.line.toClient == [Stop("T05")];
    moves, e := Extend(s, moves, e, Step(Tool, true));
    assert e.delivered[0].got == Stop("T05");
  }

  // ---- a command without the lock ----

  /** The auto-resume of `capture_on_hit` sends `c` without taking the lock. */
  function UnlockedResume(): Prog { Resumed(MarkRunning(Done), Done) }

  /** Both have sent, the stub has served both, and the tool has taken the watcher's ack. */
  function AckStolen(s: State): State {
    Asked(s).(line := Line(true, [], [Reply(0, "00"), Ack], {}), nextSerial := 2,
              tool := Thread(MarkRunning(Done), 0, 1, Ack, ""), cpu := Restarted)
  }

  lemma ToolResumes(s: State, before: seq<Move>) returns (moves: seq<Move>)
    requires s == Stopped(Paused) && Possible(s, before) && Run(s, before) == Asked(s) && PromptAll(s, before)
    ensures Possible(s, moves) && PromptAll(s, moves) && Run(s, moves) == AckStolen(s)
  {
    hide Disciplined, Possible, Run, ObligesAll, PromptAll, AllLawful, AllHeed;
    var e := Asked(s);
    moves := before;
    moves, e := Extend(s, moves, e, Start(Tool, UnlockedResume()));
    moves, e := Extend(s, moves, e, Step(Tool, true));
    assert e.line == Line(false, [Ask(0, Query("g")), Ask(1, Continue)], [], {});
    moves, e := Extend(s, moves, e, Stub(Serve("00", true)));
    moves, e := Extend(s, moves, e, Stub(Serve("", true)));
    assert e.line == Line(true, [], [Ack, Reply(0, "00"), Ack], {});
    moves, e := Extend(s, moves, e, Step(Tool, true));
  }

  /** While the watcher is reading registers, that resume takes the watcher's ack; the watcher then
      queues its own reply as out-of-band and accepts the next stop reply as the register dump. */
  lemma UnlockedResumeBreaksPairing() returns (moves: seq<Move>)
    ensures Init(Stopped(Paused)) && !Disciplined(UnlockedResume(), Outside)
    ensures Possible(Stopped(Paused), moves) && PromptAll(Stopped(Paused), moves)
    ensures !Paired(Run(Stopped(Paused), moves))
  {
    var s := Stopped(Paused);
    moves := WatcherAsks(Paused);
    moves := ToolResumes(s, moves);
    UnlockedIsUndisciplined();
    moves := WatcherMisled(s, moves);
  }

  lemma UnlockedIsUndisciplined()
    ensures !Disciplined(UnlockedResume(), Outside)
  {
  }

  lemma WatcherMisled(s: State, before: seq<Move>) returns (moves: seq<Move>)
    requires s == Stopped(Paused) && Possible(s, before) && Run(s, before) == AckStolen(s) && PromptAll(s, before)
    ensures Possible(s, moves) && PromptAll(s, moves) && !Paired(Run(s, moves))
  {
    hide Disciplined, Possible, Run, ObligesAll, PromptAll, AllLawful, AllHeed;
    moves := before;
    var e := AckStolen(s);
    moves, e := Extend(s, moves, e, Step(Watcher, true));
    assert e.line == Line(true, [], [Ack], {});
    moves, e := Extend(s, moves, e, Step(Watcher, true));
    assert e.line == Line(true, [], [], {});
    moves := WatcherTakesStop(s, moves, e);
  }

  lemma WatcherTakesStop(s: State, before: seq<Move>, e0: State) returns (moves: seq<Move>)
    requires Possible(s, before) && Run(s, before) == e0 && PromptAll(s, before)
    requires e0.line == Line(true, [], [], {}) && e0.delivered == [] && e0.watcher.prog.GetReply?
    requires e0.watcher.serial == 0
    ensures Possible(s, moves) && PromptAll(s, moves) && !Paired(Run(s, moves))
  {
    hide Disciplined, Possible, Run, ObligesAll, PromptAll, AllLawful, AllHeed;
    moves := before;
    var e := e0;
    moves, e := Extend(s, moves, e, Stub(Hit("T05")));
    assert e.line.toClient == [Stop("T05")];
    moves, e := Extend(s, moves, e, Step(Watcher, true));
    assert e.delivered[0] == Delivery(0, Stop("T05"));
  }

  // ---- an addition given up ----

  /** Two additions in a paused session; `requests` and `items` are on the line, `tool` is at work. */
  function Adding(requests: seq<Ask>, items: seq<Item>, armed: set<Place>, tool: Thread, n: nat): State {
    Playing(Paused).(line := Line(false, requests, items, armed), tool := tool, nextSerial := n)
  }

  lemma AddingIs(p: Place)
    ensures SafeToModify([Arm(p)])
      == Acquire(IfRunning(Enter(Commands([Arm(p)], Leave())), Send(Arm(p), ToolAsking())))
    ensures Lawful(Start(Tool, SafeToModify([Arm(p)])))
  {
    SafeToModifyDisciplined([Arm(p)]);
    assert [Arm(p)][1..] == [];
    assert Commands([], Unlock()) == Unlock();
    hide Disciplined, Enter, Leave;
  }

  /** The tool asks for `p`. */
  lemma ToolAdds(s: State, before: seq<Move>, requests: seq<Ask>, n: nat, p: Place) returns (moves: seq<Move>)
    requires s == Playing(Paused) && Possible(s, before) && AllLawful(before) && ObligesAll(s, before)
    requires exists serial: nat ::
      Run(s, before) == Adding(requests, [], {}, Thread(Done, 0, serial, Ack, ""), n)
    ensures Possible(s, moves) && AllLawful(moves) && ObligesAll(s, moves)
    ensures PromptAll(s, moves) ==> PromptAll(s, before)
    ensures Run(s, moves)
      == Adding(requests + [Ask(n, Arm(p))], [], {}, Thread(ToolAsking(), 1, n, Ack, ""), n + 1)
  {
    AddingIs(p);
    hide Possible, Run, ObligesAll, PromptAll, AllLawful, AllHeed, Disciplined, SafeToModify, Enter, Leave;
    moves := before;
    var e := Run(s, before);
    moves, e := Extend(s, moves, e, Start(Tool, SafeToModify([Arm(p)])));
    moves, e := Extend(s, moves, e, Step(Tool, true));
    moves, e := Extend(s, moves, e, Step(Tool, true));
    moves, e := Extend(s, moves, e, Step(Tool, true));
  }

  /** The tool gives up before the ack, and raises. */
  lemma ToolGivesUp(s: State, before: seq<Move>, p: Place) returns (moves: seq<Move>)
    requires s == Playing(Paused) && Possible(s, before) && AllLawful(before) && ObligesAll(s, before)
    requires Run(s, before) == Adding([Ask(0, Arm(p))], [], {}, Thread(ToolAsking(), 1, 0, Ack, ""), 1)
    ensures Possible(s, moves) && AllLawful(moves) && ObligesAll(s, moves) && !PromptAll(s, moves)
    ensures Run(s, moves) == Adding([Ask(0, Arm(p))], [], {}, Thread(Done, 0, 0, Ack, ""), 1)
  {
    hide Possible, Run, ObligesAll, PromptAll, AllLawful, AllHeed, Disciplined;
    moves := before;
    var e := Adding([Ask(0, Arm(p))], [], {}, Thread(ToolAsking(), 1, 0, Ack, ""), 1);
    moves, e := Extend(s, moves, e, Step(Tool, false));
    moves, e := Extend(s, moves, e, Step(Tool, true));
  }

  /** The stub answers the first addition, and the second call takes that answer. */
  lemma ToolMisled(s: State, before: seq<Move>, p: Place, q: Place) returns (moves: seq<Move>)
    requires s == Playing(Paused) && Possible(s, before) && AllLawful(before) && ObligesAll(s, before)
    requires Run(s, before)
      == Adding([Ask(0, Arm(p)), Ask(1, Arm(q))], [], {}, Thread(ToolAsking(), 1, 1, Ack, ""), 2)
    ensures Possible(s, moves) && AllLawful(moves) && ObligesAll(s, moves)
    ensures PromptAll(s, moves) ==> PromptAll(s, before)
    ensures Run(s, moves) == Adding([Ask(1, Arm(q))], [], {p},
      Thread(Choose(Unlock(), Unlock()), 1, 1, Ack, "OK"), 2).(delivered := [Delivery(1, Reply(0, "OK"))])
  {
    hide Possible, Run, ObligesAll, PromptAll, AllLawful, AllHeed, Disciplined;
    moves := before;
    var e := Adding([Ask(0, Arm(p)), Ask(1, Arm(q))], [], {}, Thread(ToolAsking(), 1, 1, Ack, ""), 2);
    moves, e := Extend(s, moves, e, Stub(Serve("OK", true)));
    assert e.line == Line(false, [Ask(1, Arm(q))], [Ack, Reply(0, "OK")], {p});
    moves, e := Extend(s, moves, e, Step(Tool, true));
    assert e.line.toClient == [Reply(0, "OK")];
    moves, e := Extend(s, moves, e, Step(Tool, true));
    assert e.line.toClient == [];
  }

  /** The tool is done, and the stub refuses the second addition. */
  lemma StubRefuses(s: State, before: seq<Move>, p: Place, q: Place) returns (moves: seq<Move>)
    requires s == Playing(Paused) && Possible(s, before) && AllLawful(before) && ObligesAll(s, before)
    requires Run(s, before) == Adding([Ask(1, Arm(q))], [], {p},
      Thread(Choose(Unlock(), Unlock()), 1, 1, Ack, "OK"), 2).(delivered := [Delivery(1, Reply(0, "OK"))])
    ensures Possible(s, moves) && AllLawful(moves) && ObligesAll(s, moves)
    ensures PromptAll(s, moves) ==> PromptAll(s, before)
    ensures Run(s, moves) == Adding([], [Ack, Reply(1, "E01")], {p}, Thread(Done, 0, 1, Ack, "OK"), 2)
      .(delivered := [Delivery(1, Reply(0, "OK"))])
  {
    hide Possible, Run, ObligesAll, PromptAll, AllLawful, AllHeed, Disciplined;
    moves := before;
    var e := Adding([Ask(1, Arm(q))], [], {p}, Thread(Choose(Unlock(), Unlock()), 1, 1, Ack, "OK"), 2)
      .(delivered := [Delivery(1, Reply(0, "OK"))]);
    moves, e := Extend(s, moves, e, Step(Tool, true));
    moves, e := Extend(s, moves, e, Step(Tool, true));
    moves, e := Extend(s, moves, e, Stub(Serve("E01", true)));
    assert e.line == Line(false, [], [Ack, Reply(1, "E01")], {p});
  }

  lemma NothingAsked()
    ensures var s := Playing(Paused);
      && Init(s) && Possible(s, []) && AllLawful([]) && ObligesAll(s, [])
      && Run(s, []) == Adding([], [], {}, Thread(Done, 0, 0, Ack, ""), 0)
  {
  }

  /** In a paused session `add_breakpoint(p)` times out before its ack, and `add_breakpoint(q)` then takes the
      stub's acceptance of `p` for its own.  It registers `q`, which the stub refuses, so the registry no longer
      agrees with the stub; no call that is answered, or lost, ends like that. */
  lemma LateAddRegistersRefused(p: Place, q: Place) returns (moves: seq<Move>)
    requires p != q
    ensures Init(Playing(Paused)) && Possible(Playing(Paused), moves) && AllLawful(moves)
    ensures ObligesAll(Playing(Paused), moves) && !PromptAll(Playing(Paused), moves)
    ensures var e := Run(Playing(Paused), moves);
      && e.delivered == [Delivery(1, Reply(0, "OK"))] && Accepts(e.tool.reply) && e.tool.prog.Done?
      && e.line.toStub == [] && e.line.armed == {p}
      && Unarmed(p, q, e.line.armed)
  {
    hide Possible, Run, ObligesAll, PromptAll, AllLawful, AllHeed, Disciplined, Unarmed, ToolAsking, Init, Playing;
    var s := Playing(Paused);
    moves := [];
    NothingAsked();
    moves := ToolAdds(s, moves, [], 0, p);
    assert [] + [Ask(0, Arm(p))] == [Ask(0, Arm(p))];
    moves := ToolGivesUp(s, moves, p);
    moves := ToolAdds(s, moves, [Ask(0, Arm(p))], 1, q);
    assert [Ask(0, Arm(p))] + [Ask(1, Arm(q))] == [Ask(0, Arm(p)), Ask(1, Arm(q))];
    moves := ToolMisled(s, moves, p, q);
    moves := StubRefuses(s, moves, p, q);
    OnlyUnsure(p, q);
  }

  /** With `q` registered, and `armed` at the stub, the registry does not agree; from the books with `p` armed
      by a lost addition only an addition on an unsure reply leads there. */
  ghost predicate Unarmed(p: Place, q: Place, armed: set<Place>) {
    var books := Registry.Books([Registry.NewSpec(1, q)], 2, armed);
    && !Registry.Agrees(books)
    && forall c :: Registry.After(Registry.Books([], 1, {p}), c) == books ==> c == Registry.AddUnsure(q, false)
  }

  lemma OnlyUnsure(p: Place, q: Place)
    requires p != q
    ensures Unarmed(p, q, {p})
  {
    var books := Registry.Books([Registry.NewSpec(1, q)], 2, {p});
    assert books.specs[0].place in Registry.Places(books.specs);
    forall c | Registry.After(Registry.Books([], 1, {p}), c) == books ensures c == Registry.AddUnsure(q, false) {
      if c.Added? || c.AddUnsure? {
        assert Registry.After(Registry.Books([], 1, {p}), c).specs[0].place == c.place;
      }
    }
  }

  // ---- a stop put back ----

  /** Two stops are queued. */
  function TwoQueued(): State { Stopped(Running).(pending := [Stop("A"), Stop("B")]) }

  function Surfacing(prog: Prog, queue: seq<Item>): State {
    TwoQueued().(pending := queue, watcher := Thread(prog, 1, 0, Stop("A"), ""))
  }

  function Surfaced(): Prog { Requeue(MarkPaused(Unlock())) }

  function Choice(): Prog { Choose(Surfaced(), Continued()) }

  lemma WatcherTakesFirst() returns (moves: seq<Move>)
    ensures LawfulRun(TwoQueued(), moves) && Run(TwoQueued(), moves) == Surfacing(Choice(), [Stop("B")])
    ensures var l := Ledger([Stop("A"), Stop("B")], []);
      BookedAll(l, TwoQueued(), moves) == Ledger(l.sent, [Stop("A")])
  {
    var s, l := TwoQueued(), Ledger([Stop("A"), Stop("B")], []);
    WatcherDisciplined([]);
    var iteration := WatcherIteration([]);
    assert iteration == Acquire(Wait(Choice(), Unlock()));
    AtStart(s, l);
    hide Disciplined, WatcherIteration, Stops, Possible, Run, ObligesAll, PromptAll, AllLawful, AllHeed, BookedAll;
    hide Continued;
    var e := s;
    moves := [];
    moves, e, l := ExtendBooked(s, moves, e, l, Start(Watcher, iteration));
    assert e == s.(watcher := Thread(iteration, 0, 0, Ack, "")) && l == Ledger([Stop("A"), Stop("B")], []);
    moves, e, l := ExtendBooked(s, moves, e, l, Step(Watcher, true));
    assert e == s.(watcher := Thread(Wait(Choice(), Unlock()), 1, 0, Ack, ""));
    assert l == Ledger([Stop("A"), Stop("B")], []);
    moves, e, l := ExtendBooked(s, moves, e, l, Step(Watcher, true));
    LawfulParts(s, moves);
  }

  lemma AtStart(s: State, l: Ledger)
    ensures Possible(s, []) && Run(s, []) == s && PromptAll(s, []) && AllLawful([]) && BookedAll(l, s, []) == l
  {
  }

  /** One more move, with its entry in the ledger. */
  lemma ExtendBooked(s: State, moves: seq<Move>, e: State, l: Ledger, m: Move)
    returns (moves': seq<Move>, e': State, l': Ledger)
    requires Possible(s, moves) && Run(s, moves) == e && Enabled(e, m)
    requires BookedAll(Ledger([Stop("A"), Stop("B")], []), s, moves) == l
    ensures moves' == moves + [m] && e' == Next(e, m) && Possible(s, moves') && Run(s, moves') == e'
    ensures l' == Booked(l, e, m) && BookedAll(Ledger([Stop("A"), Stop("B")], []), s, moves') == l'
    ensures PromptAll(s, moves') <==> PromptAll(s, moves) && Prompt(e, m)
    ensures AllLawful(moves) && Lawful(m) ==> AllLawful(moves')
  {
    moves', e' := Extend(s, moves, e, m);
    BookedSnoc(Ledger([Stop("A"), Stop("B")], []), s, moves, m);
    l' := Booked(l, e, m);
  }

  /** Surfacing a stop while another one is queued swaps the two, on a lawful and prompt run. */
  lemma SurfacingReorders() returns (moves: seq<Move>)
    ensures Init(TwoQueued()) && LawfulRun(TwoQueued(), moves)
    ensures Outstanding(TwoQueued()) == [Stop("A"), Stop("B")]
    ensures Run(TwoQueued(), moves).pending == [Stop("B"), Stop("A")]
    ensures !InOrder(BookedAll(Ledger(Outstanding(TwoQueued()), []), TwoQueued(), moves), Run(TwoQueued(), moves))
  {
    var s, l := TwoQueued(), Ledger([Stop("A"), Stop("B")], [Stop("A")]);
    moves := WatcherTakesFirst();
    LawfulParts(s, moves);
    assert Stops([]) == [];
    hide Disciplined, Possible, Run, ObligesAll, PromptAll, AllLawful, AllHeed, LawfulRun, BookedAll;
    var e := Surfacing(Choice(), [Stop("B")]);
    moves, e, l := ExtendBooked(s, moves, e, l, Step(Watcher, true));
    moves, e, l := ExtendBooked(s, moves, e, l, Step(Watcher, true));
    assert e.pending == [Stop("B"), Stop("A")] && l == Ledger([Stop("A"), Stop("B")], []);
    assert l.sent[0] == Stop("A") && (l.taken + Outstanding(e))[0] == Stop("B");
    LawfulParts(s, moves);
  }
}
