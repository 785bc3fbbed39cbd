/** Where the stop replies of a run are: every one the stub has sent has been taken by a thread, is in
    the queue, or is still on the line, exactly once. */
module Delivery {
  import opened Text
  import opened Wire
  import opened Interleaving

  /** The stop replies among the items, in order. */
  function Stops(items: seq<Item>): seq<Item> {
    if items == [] then [] else (if items[0].Stop? then [items[0]] else []) + Stops(items[1..])
  }

  lemma {:induction false} StopsAppend(a: seq<Item>, b: seq<Item>)
    ensures Stops(a + b) == Stops(a) + Stops(b)
  {
    if a == [] {
      assert a + b == b;
    } else {
      assert (a + b)[1..] == a[1..] + b && (a + b)[0] == a[0];
      StopsAppend(a[1..], b);
      var first := if a[0].Stop? then [a[0]] else [];
      assert first + (Stops(a[1..]) + Stops(b)) == first + Stops(a[1..]) + Stops(b);
    }
  }

  /** Sent by the stub, and taken by the client for good. */
  datatype Ledger = Ledger(sent: seq<Item>, taken: seq<Item>)

  /** Sent and not taken: the queue is older than the line. */
  function Outstanding(s: State): seq<Item> { s.pending + Stops(s.line.toClient) }

  function NewStops(s: State, move: Move): seq<Item>
    requires Enabled(s, move)
  {
    if move.Stub? && |Moved(s.line, move.m).toClient| >= |s.line.toClient|
    then Stops(Moved(s.line, move.m).toClient[|s.line.toClient|..]) else []
  }

  /** What a move adds to the stops taken; a requeued stop is not taken any more. */
  function Taken(taken: seq<Item>, s: State, move: Move): seq<Item>
    requires Enabled(s, move)
  {
    if !move.Step? then taken
    else
      match s.Get(move.t).prog
      case Wait(_, _) => if move.taken then taken + [TakePacket(s).1] else taken
      case Sweep(_) => if move.taken then taken + [TakePacket(s).1] else taken
      case Clear(_) => taken + s.pending
      case Requeue(_) => if taken == [] then [] else taken[..|taken| - 1]
      case _ => taken
  }

  function Booked(l: Ledger, s: State, move: Move): Ledger
    requires Enabled(s, move)
  {
    Ledger(l.sent + NewStops(s, move), Taken(l.taken, s, move))
  }

  function BookedAll(l: Ledger, s: State, moves: seq<Move>): Ledger
    requires Possible(s, moves)
    decreases |moves|
  {
    if moves == [] then l else BookedAll(Booked(l, s, moves[0]), Next(s, moves[0]), moves[1..])
  }

  predicate Requeues(s: State, move: Move) { move.Step? && s.Get(move.t).prog.Requeue? }

  /** A stop is put back behind nothing but equal ones, so in particular into an empty queue. */
  predicate PutsBackLast(s: State, move: Move) {
    Requeues(s, move) ==> forall i :: 0 <= i < |s.pending| ==> s.pending[i] == s.Get(move.t).held
  }

  /** Every stop put back during the run is put back so. */
  predicate Orderly(s: State, moves: seq<Move>)
    requires Possible(s, moves)
    decreases |moves|
  {
    moves != [] ==> PutsBackLast(s, moves[0]) && Orderly(Next(s, moves[0]), moves[1..])
  }

  // ---- one move ----

  lemma StubSends(l: Line, m: StubMove)
    requires CanMove(l, m)
    ensures l.toClient <= Moved(l, m).toClient
  {
  }

  /** A move passes stops on from the line to the queue to the threads without loss or reordering. */
  predicate Flows(s: State, move: Move)
    requires Enabled(s, move)
  {
    Taken([], s, move) + Outstanding(Next(s, move)) == Outstanding(s) + NewStops(s, move)
  }

  lemma TakenIsAppended(taken: seq<Item>, s: State, move: Move)
    requires Enabled(s, move) && !Requeues(s, move)
    ensures Taken(taken, s, move) == taken + Taken([], s, move)
  {
  }

  lemma StopsFirst(items: seq<Item>)
    requires items != []
    ensures Stops(items) == if items[0].Stop? then [items[0]] + Stops(items[1..]) else Stops(items[1..])
  {
  }

  lemma AddNothing(a: seq<Item>)
    ensures [] + a == a == a + []
  {
  }

  lemma TakingFlows(s: State, t: Tid, k: Know, obliging: bool)
    requires Owns(s, s.Get(t), k, obliging) && PacketReady(s) && AllStops(s.pending)
    requires s.Get(t).prog.Wait? || s.Get(t).prog.Sweep?
    ensures Flows(s, Step(t, true))
  {
    StopFront(s, t, k, obliging);
    hide Owns, AllStops;
    PacketFlows(s);
    StepTakes(s, t);
    hide Outstanding, TakePacket, Taken, NewStops, Next;
    AddNothing(Outstanding(s));
  }

  lemma StepTakes(s: State, t: Tid)
    requires Enabled(s, Step(t, true)) && PacketReady(s) && (s.Get(t).prog.Wait? || s.Get(t).prog.Sweep?)
    ensures Taken([], s, Step(t, true)) == [TakePacket(s).1] && NewStops(s, Step(t, true)) == []
    ensures Outstanding(Next(s, Step(t, true))) == Outstanding(TakePacket(s).0)
  {
    hide Stops, TakePacket;
  }

  lemma PacketFlows(s: State)
    requires PacketReady(s)
    requires s.line.toClient != [] ==> s.line.toClient[0].Stop? && NextPacket(s.line.toClient) == 0
    ensures Outstanding(s) == [TakePacket(s).1] + Outstanding(TakePacket(s).0)
  {
    hide Stops, NextPacket;
    if s.pending == [] {
      StopsFirst(s.line.toClient);
    } else {
      Associate([s.pending[0]], s.pending[1..], Stops(s.line.toClient));
      assert s.pending == [s.pending[0]] + s.pending[1..];
    }
  }

  lemma StopFront(s: State, t: Tid, k: Know, obliging: bool)
    requires Owns(s, s.Get(t), k, obliging) && PacketReady(s) && (s.Get(t).prog.Wait? || s.Get(t).prog.Sweep?)
    ensures s.line.toClient != [] ==> s.line.toClient[0].Stop? && NextPacket(s.line.toClient) == 0
  {
    hide Disciplined, Covered;
    assert Permitted(s.Get(t).prog, k) by { DisciplinedPermits(s.Get(t).prog, k); }
  }

  lemma DisciplinedPermits(p: Prog, k: Know)
    requires Disciplined(p, k)
    ensures Permitted(p, k)
  {
  }

  lemma AckFront(s: State, t: Tid, k: Know, obliging: bool)
    requires Owns(s, s.Get(t), k, obliging) && s.Get(t).prog.GetAck? && s.line.toClient != []
    ensures s.line.toClient[0].Ack? || s.line.toClient[0].Stop?
  {
    hide Disciplined, Covered;
  }

  lemma ReplyFront(s: State, t: Tid, k: Know, obliging: bool)
    requires Owns(s, s.Get(t), k, obliging) && s.Get(t).prog.GetReply?
    ensures s.line.toClient != [] && s.line.toClient[0].Reply?
  {
    hide Disciplined, Covered;
  }

  lemma ReadingFlows(s: State, t: Tid, k: Know, obliging: bool)
    requires Owns(s, s.Get(t), k, obliging) && Enabled(s, Step(t, true))
    requires s.Get(t).prog.GetAck? || s.Get(t).prog.GetReply?
    ensures Flows(s, Step(t, true))
  {
    if s.Get(t).prog.GetAck? {
      AckFront(s, t, k, obliging);
    } else {
      ReplyFront(s, t, k, obliging);
      assert NextPacket(s.line.toClient) == 0;
    }
    StepReads(s, t);
    hide Owns, Outstanding, Taken, NewStops, Next;
    AddNothing(Outstanding(s));
  }

  lemma StepReads(s: State, t: Tid)
    requires Enabled(s, Step(t, true)) && s.line.toClient != []
    requires if s.Get(t).prog.GetAck? then s.line.toClient[0].Ack? || s.line.toClient[0].Stop?
      else s.Get(t).prog.GetReply? && s.line.toClient[0].Reply? && NextPacket(s.line.toClient) == 0
    ensures Taken([], s, Step(t, true)) == NewStops(s, Step(t, true)) == []
    ensures Outstanding(Next(s, Step(t, true))) == Outstanding(s)
  {
    hide Stops, NextPacket;
    var first, rest := s.line.toClient[0], s.line.toClient[1..];
    StopsFirst(s.line.toClient);
    Associate(s.pending, [first], Stops(rest));
  }

  lemma StubFlows(s: State, m: StubMove)
    requires CanMove(s.line, m)
    ensures Flows(s, Stub(m))
  {
    hide Moved, Stops, NewStops;
    StubLine(s, m);
    Associate(s.pending, Stops(s.line.toClient), NewStops(s, Stub(m)));
    AddNothing(Outstanding(Next(s, Stub(m))));
  }

  lemma MoveFlows(s: State, move: Move, k: Know, obliging: bool)
    requires Inv(s, k, obliging) && Enabled(s, move) && Prompt(s, move) && !Requeues(s, move)
    ensures Flows(s, move)
  {
    match move
    case Stub(m) => StubFlows(s, m);
    case Start(_, _) =>
    case Step(t, taken) =>
      var p := s.Get(t).prog;
      if s.Get(t).depth == 0 {
        OutsideFlows(s, t, taken, k, obliging);
      } else {
        OwnerOf(s, t, k, obliging);
        hide Inv, Owns, Flows;
        if p.GetAck? || p.GetReply? {
          ReadingFlows(s, t, k, obliging);
        } else if (p.Wait? || p.Sweep?) && taken {
          TakingFlows(s, t, k, obliging);
        } else {
          QuietFlows(s, t, taken);
        }
      }
  }

  lemma OutsideFlows(s: State, t: Tid, taken: bool, k: Know, obliging: bool)
    requires Inv(s, k, obliging) && Enabled(s, Step(t, taken)) && s.Get(t).depth == 0
    ensures Flows(s, Step(t, taken))
  {
    assert Permitted(s.Get(t).prog, Outside);
  }

  /** Steps that read nothing from the line. */
  lemma QuietFlows(s: State, t: Tid, taken: bool)
    requires Enabled(s, Step(t, taken)) && !Requeues(s, Step(t, taken))
    requires var p := s.Get(t).prog; !p.GetAck? && !p.GetReply? && !((p.Wait? || p.Sweep?) && taken)
    ensures Flows(s, Step(t, taken))
  {
  }

  // ---- whole runs ----

  predicate InOrder(l: Ledger, s: State) { l.sent == l.taken + Outstanding(s) }

  /** In order in every state of the run. */
  predicate AlwaysInOrder(l: Ledger, s: State, moves: seq<Move>)
    requires Possible(s, moves)
    decreases |moves|
  {
    InOrder(l, s) && (moves != [] ==> AlwaysInOrder(Booked(l, s, moves[0]), Next(s, moves[0]), moves[1..]))
  }

  /** The stops on the line are the last of those sent, in order; the ones before them have been taken or are
      queued, each once. */
  ghost predicate Balanced(l: Ledger, s: State) {
    var line := Stops(s.line.toClient);
    && |line| <= |l.sent| && l.sent[|l.sent| - |line|..] == line
    && multiset(l.sent[..|l.sent| - |line|]) == multiset(l.taken) + multiset(s.pending)
  }

  /** The stop a thread holds, if it may put one back, is the one taken last. */
  predicate HeldIsLast(l: Ledger, s: State, k: Know) {
    forall t :: s.Get(t).depth > 0 && k.Inside? && k.holding ==>
      l.taken != [] && l.taken[|l.taken| - 1] == s.Get(t).held
  }

  /** A move takes stops off the front of the line only. */
  lemma LineShrinksInFront(s: State, move: Move)
    requires Enabled(s, move)
    ensures var line, line' := Stops(s.line.toClient) + NewStops(s, move), Stops(Next(s, move).line.toClient);
      |line'| <= |line| && line' == line[|line| - |line'|..]
  {
    match move
    case Stub(m) =>
      StubLine(s, m);
    case Start(_, _) =>
      NothingRead(s.line.toClient);
    case Step(t, taken) =>
      var items := s.line.toClient;
      var n := StepLine(s, t, taken);
      hide Next, Stops;
      assert items == items[..n] + items[n..];
      StopsAppend(items[..n], items[n..]);
      NothingRead(items);
  }

  lemma NothingRead(items: seq<Item>)
    ensures Stops(items) + [] == Stops(items) && Stops(items) == Stops(items)[0..]
  {
  }

  /** A step reads the first `n` items of the line. */
  lemma StepLine(s: State, t: Tid, taken: bool) returns (n: nat)
    requires Enabled(s, Step(t, taken))
    ensures n <= |s.line.toClient| && Next(s, Step(t, taken)).line.toClient == s.line.toClient[n..]
  {
    hide NextPacket;
    var p, items := s.Get(t).prog, s.line.toClient;
    n := 0;
    if p.GetAck? && taken {
      n := 1;
    } else if (p.GetReply? && taken) || ((p.Wait? || p.Sweep?) && taken && s.pending == []) {
      n := NextPacket(items) + 1;
    } else {
      assert items[0..] == items;
    }
  }

  lemma StubLine(s: State, m: StubMove)
    requires CanMove(s.line, m)
    ensures Stops(Next(s, Stub(m)).line.toClient) == Stops(s.line.toClient) + NewStops(s, Stub(m))
  {
    hide Moved, Stops;
    StubSends(s.line, m);
    var before, now := s.line.toClient, Moved(s.line, m).toClient;
    assert now == before + now[|before|..];
    StopsAppend(before, now[|before|..]);
  }

  /** What a move takes off the line goes to the queue or to a thread: `more` is taken, `queue'` is the queue
      and `line'` the line afterwards. */
  lemma Carried(sent: seq<Item>, taken: seq<Item>, queue: seq<Item>, line: seq<Item>, added: seq<Item>,
                more: seq<Item>, queue': seq<Item>, line': seq<Item>)
    requires more + (queue' + line') == queue + line + added
    requires |line'| <= |line + added| && line' == (line + added)[|line + added| - |line'|..]
    requires |line| <= |sent| && sent[|sent| - |line|..] == line
    requires multiset(sent[..|sent| - |line|]) == multiset(taken) + multiset(queue)
    ensures |line'| <= |sent + added| && (sent + added)[|sent + added| - |line'|..] == line'
    ensures multiset((sent + added)[..|sent + added| - |line'|]) == multiset(taken + more) + multiset(queue')
  {
    var front, left := sent[..|sent| - |line|], (line + added)[..|line + added| - |line'|];
    assert sent == front + line && line + added == left + line';
    Associate(front, line, added);
    Associate(front, left, line');
    Associate(more, queue', line');
    Associate(queue, line, added);
    Associate(queue, left, line');
    SameFront(more + queue', queue + left, line');
    assert sent + added == front + left + line';
    assert (sent + added)[..|sent + added| - |line'|] == front + left;
    MoreTaken(front, left, taken, queue, more, queue');
  }

  lemma SameFront(a: seq<Item>, b: seq<Item>, c: seq<Item>)
    requires a + c == b + c
    ensures a == b
  {
    assert (a + c)[..|a|] == a && (b + c)[..|b|] == b;
  }

  lemma MoreTaken(front: seq<Item>, left: seq<Item>, taken: seq<Item>, queue: seq<Item>, more: seq<Item>,
                  queue': seq<Item>)
    requires multiset(front) == multiset(taken) + multiset(queue) && more + queue' == queue + left
    ensures multiset(front + left) == multiset(taken + more) + multiset(queue')
  {
    calc {
      multiset(front + left);
      multiset(taken) + (multiset(queue) + multiset(left));
      { assert multiset(queue) + multiset(left) == multiset(queue + left); }
      multiset(taken) + multiset(more + queue');
      multiset(taken + more) + multiset(queue');
    }
  }

  lemma KeepsBalance(l: Ledger, s: State, move: Move)
    requires Enabled(s, move) && !Requeues(s, move) && Flows(s, move) && Balanced(l, s)
    ensures Balanced(Booked(l, s, move), Next(s, move))
  {
    hide Next, NewStops, Taken, Stops, Requeues;
    LineShrinksInFront(s, move);
    TakenIsAppended(l.taken, s, move);
    var s' := Next(s, move);
    Carried(l.sent, l.taken, s.pending, Stops(s.line.toClient), NewStops(s, move), Taken([], s, move), s'.pending,
      Stops(s'.line.toClient));
  }

  lemma KeepsOrder(l: Ledger, s: State, move: Move)
    requires Enabled(s, move) && !Requeues(s, move) && Flows(s, move) && InOrder(l, s)
    ensures InOrder(Booked(l, s, move), Next(s, move))
  {
    TakenIsAppended(l.taken, s, move);
    hide Outstanding, Next, NewStops, Taken;
    Associate(l.taken, Taken([], s, move), Outstanding(Next(s, move)));
    Associate(l.taken, Outstanding(s), NewStops(s, move));
  }

  lemma RequeueBalances(l: Ledger, s: State, move: Move)
    requires Enabled(s, move) && Requeues(s, move) && Balanced(l, s)
    requires l.taken != [] && l.taken[|l.taken| - 1] == s.Get(move.t).held
    ensures Balanced(Booked(l, s, move), Next(s, move))
  {
    RequeueStep(l, s, move);
    hide Stops, Booked, Next, Requeues;
    PutBack(l.taken[..|l.taken| - 1], s.Get(move.t).held, l.taken, s.pending);
  }

  lemma RequeueStep(l: Ledger, s: State, move: Move)
    requires Enabled(s, move) && Requeues(s, move) && l.taken != []
    ensures Booked(l, s, move) == Ledger(l.sent, l.taken[..|l.taken| - 1])
    ensures Next(s, move).pending == s.pending + [s.Get(move.t).held] && Next(s, move).line == s.line
  {
    assert l.sent + [] == l.sent;
  }

  lemma PutBack(less: seq<Item>, held: Item, taken: seq<Item>, queue: seq<Item>)
    requires taken == less + [held]
    ensures multiset(taken) + multiset(queue) == multiset(less) + multiset(queue + [held])
  {
  }

  lemma {:induction false} RotatesOnly(x: Item, queue: seq<Item>, i: nat)
    requires [x] + queue == queue + [x] && i < |queue|
    ensures queue[i] == x
  {
    assert queue[i] == (queue + [x])[i] == ([x] + queue)[i];
    if i == 0 {
    } else {
      RotatesOnly(x, queue, i - 1);
    }
  }

  lemma Rotates(x: Item, queue: seq<Item>)
    ensures [x] + queue == queue + [x] <==> forall i :: 0 <= i < |queue| ==> queue[i] == x
  {
    if [x] + queue == queue + [x] {
      forall i | 0 <= i < |queue| ensures queue[i] == x {
        RotatesOnly(x, queue, i);
      }
    }
  }

  /** Putting a stop back keeps the order if and only if nothing but equal stops is queued before it. */
  lemma RequeueKeepsOrder(l: Ledger, s: State, move: Move)
    requires Enabled(s, move) && Requeues(s, move) && InOrder(l, s)
    requires l.taken != [] && l.taken[|l.taken| - 1] == s.Get(move.t).held
    ensures InOrder(Booked(l, s, move), Next(s, move)) <==> PutsBackLast(s, move)
  {
    RequeueStep(l, s, move);
    hide Stops, Booked, Next;
    var held, less, line := s.Get(move.t).held, l.taken[..|l.taken| - 1], Stops(s.line.toClient);
    assert l.taken == less + [held];
    Rotates(held, s.pending);
    assert l.sent == less + ([held] + s.pending) + line;
    var l', s' := Booked(l, s, move), Next(s, move);
    assert l'.taken + Outstanding(s') == less + (s.pending + [held]) + line;
    if InOrder(l', s') {
      SameMiddle(less, [held] + s.pending, s.pending + [held], line);
    }
  }

  lemma SameMiddle(a: seq<Item>, b: seq<Item>, b': seq<Item>, c: seq<Item>)
    requires a + b + c == a + b' + c && |b| == |b'|
    ensures b == b'
  {
    assert (a + b + c)[|a|..|a| + |b|] == b && (a + b' + c)[|a|..|a| + |b'|] == b';
  }

  lemma HoldingKept(l: Ledger, s: State, move: Move, k: Know, k': Know)
    requires Enabled(s, move) && HeldIsLast(l, s, k) && StillHolds(s, move, k, k')
    requires s.tool.depth == 0 || s.watcher.depth == 0
    requires move.Step? && s.Get(move.t).depth == 0 ==> s.Get(move.t).prog.Acquire? || s.Get(move.t).prog.IfRunning?
    ensures HeldIsLast(Booked(l, s, move), Next(s, move), k')
  {
    var l', s' := Booked(l, s, move), Next(s, move);
    forall t | s'.Get(t).depth > 0 && k'.Inside? && k'.holding
      ensures l'.taken != [] && l'.taken[|l'.taken| - 1] == s'.Get(t).held
    {
      if move.Step? && s.Get(move.t).depth > 0 {
        assert t == move.t;
        if !(s.Get(t).prog.Wait? && move.taken) {
          assert l'.taken == l.taken && s'.Get(t).held == s.Get(t).held;
        }
      } else {
        assert k' == k && l'.taken == l.taken && s'.Get(t).held == s.Get(t).held;
      }
    }
  }

  lemma {:induction false} RunBalances(l: Ledger, s: State, moves: seq<Move>, k: Know, obliging: bool)
    requires Inv(s, k, obliging) && LawfulRun(s, moves) && HeldIsLast(l, s, k) && Balanced(l, s)
    ensures Balanced(BookedAll(l, s, moves), Run(s, moves))
    ensures InOrder(l, s) ==> (AlwaysInOrder(l, s, moves) <==> Orderly(s, moves))
    ensures InOrder(l, s) && Orderly(s, moves) ==> InOrder(BookedAll(l, s, moves), Run(s, moves))
    decreases |moves|
  {
    if moves == [] {
    } else {
      var move := moves[0];
      LawfulTail(s, moves);
      var k1 := StepKeeps(s, move, k, obliging);
      MoveBalances(l, s, move, k, k1, obliging);
      hide LawfulRun, Inv, Next, Obliges, Prompt, Enabled, PutsBackLast, Lawful, StillHolds;
      hide InOrder, Balanced, HeldIsLast, Booked;
      RunBalances(Booked(l, s, move), Next(s, move), moves[1..], k1, obliging && Obliges(s, move));
      NeverInOrder(Booked(l, s, move), Next(s, move), moves[1..]);
    }
  }

  lemma NeverInOrder(l: Ledger, s: State, moves: seq<Move>)
    requires Possible(s, moves)
    ensures AlwaysInOrder(l, s, moves) ==> InOrder(l, s)
  {
  }

  lemma MoveBalances(l: Ledger, s: State, move: Move, k: Know, k': Know, obliging: bool)
    requires Inv(s, k, obliging) && Enabled(s, move) && Prompt(s, move) && StillHolds(s, move, k, k')
    requires HeldIsLast(l, s, k) && Balanced(l, s)
    ensures HeldIsLast(Booked(l, s, move), Next(s, move), k') && Balanced(Booked(l, s, move), Next(s, move))
    ensures InOrder(l, s) ==> (InOrder(Booked(l, s, move), Next(s, move)) <==> PutsBackLast(s, move))
  {
    OutsideOrOwner(s, move, k, obliging);
    hide Inv, Booked, InOrder, Balanced, StillHolds;
    HoldingKept(l, s, move, k, k');
    if Requeues(s, move) {
      RequeueBalances(l, s, move);
      if InOrder(l, s) {
        RequeueKeepsOrder(l, s, move);
      }
    } else {
      MoveFlows(s, move, k, obliging);
      KeepsBalance(l, s, move);
      if InOrder(l, s) {
        KeepsOrder(l, s, move);
      }
    }
  }

  lemma OutsideOrOwner(s: State, move: Move, k: Know, obliging: bool)
    requires Inv(s, k, obliging) && Enabled(s, move)
    ensures s.tool.depth == 0 || s.watcher.depth == 0
    ensures move.Step? && s.Get(move.t).depth == 0 ==> s.Get(move.t).prog.Acquire? || s.Get(move.t).prog.IfRunning?
    ensures Requeues(s, move) ==> s.Get(move.t).depth > 0 && k.Inside? && k.holding
  {
    if move.Step? {
      assert s.Get(move.t).depth == 0 ==> Permitted(s.Get(move.t).prog, Outside);
      assert s.Get(move.t).depth > 0 ==> Permitted(s.Get(move.t).prog, k);
    }
  }

  /** Stop replies are delivered exactly once.  On every run in which exchanges are answered in time, whatever
      the two threads and the stub do otherwise: the stops on the line are the last of those sent, in order,
      so everything queued is older; the ones before them have been taken or are queued, each once.  They are
      taken and queued in the order sent, in every state of the run, if and only if no stop is put back behind
      a different one. */
  lemma DeliveredOnce(s: State, moves: seq<Move>)
    requires Init(s) && LawfulRun(s, moves)
    ensures Balanced(BookedAll(Ledger(Outstanding(s), []), s, moves), Run(s, moves))
    ensures AlwaysInOrder(Ledger(Outstanding(s), []), s, moves) <==> Orderly(s, moves)
    ensures Orderly(s, moves) ==> InOrder(BookedAll(Ledger(Outstanding(s), []), s, moves), Run(s, moves))
  {
    var l := Ledger(Outstanding(s), []);
    StartBalanced(s);
    RunBalances(l, s, moves, Outside, true);
  }

  lemma StartBalanced(s: State)
    ensures Balanced(Ledger(Outstanding(s), []), s) && InOrder(Ledger(Outstanding(s), []), s)
  {
    var line, sent := Stops(s.line.toClient), Outstanding(s);
    assert sent[..|sent| - |line|] == s.pending && [] + sent == sent;
  }

  lemma {:induction false} BookedSnoc(l: Ledger, s: State, moves: seq<Move>, m: Move)
    requires Possible(s, moves) && Enabled(Run(s, moves), m)
    ensures Possible(s, moves + [m])
    ensures BookedAll(l, s, moves + [m]) == Booked(BookedAll(l, s, moves), Run(s, moves), m)
    decreases |moves|
  {
    hide Enabled, Next, Booked;
    RunSnoc(s, moves, m);
    if moves == [] {
    } else {
      assert (moves + [m])[1..] == moves[1..] + [m];
      BookedSnoc(Booked(l, s, moves[0]), Next(s, moves[0]), moves[1..], m);
    }
  }
}
