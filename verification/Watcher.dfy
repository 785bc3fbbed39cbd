/** The stop watcher: what one iteration does with a stop, the accounting over a whole run, and the
    capture logs; and the tracing tools that bracket it. */
module Watcher {
  import opened Text
  import opened Wire
  import opened Connection
  import opened Registry
  import opened Session
  import StopReply

  /** What became of a stop the watcher took; `Died` when a register read raised. */
  datatype Verdict = Surfaced | Died | Dropped(id: nat) | Logged(id: nat)
  {
    predicate Consumed() { Dropped? || Logged? }
  }

  /** The spec a stop is captured for: the one it is attributed to, if that one is auto-continuing. */
  function Capturing(specs: seq<Spec>, p: StopReply.Reply): Option<nat> {
    match Attributed(specs, p)
    case None => None
    case Some(id) =>
      var i := Find(specs, id);
      if i < |specs| && specs[i].autoContinue then Some(id) else None
  }

  /** Position `i` holds the spec the stop is attributed to, the first of that id, and it is auto-continuing. */
  predicate IsCapturing(specs: seq<Spec>, p: StopReply.Reply, i: int) {
    && 0 <= i < |specs| && specs[i].autoContinue && Attributed(specs, p) == Some(specs[i].id)
    && forall k :: 0 <= k < i ==> specs[k].id != specs[i].id
  }

  /** `spec.log.append(capture)` for the spec with that id. */
  function WithEntry(specs: seq<Spec>, id: nat, c: Capture): (r: seq<Spec>)
    ensures |r| == |specs|
  {
    var i := Find(specs, id);
    if i == |specs| then specs else specs[i := specs[i].(log := specs[i].log + [c])]
  }

  /** The condition of a spec as an arbitrary predicate on the capture; no condition passes. */
  type Condition = (string, Capture) -> bool

  predicate Passes(specs: seq<Spec>, id: nat, c: Capture, condition: Condition) {
    var i := Find(specs, id);
    i < |specs| ==> specs[i].condition == "" || condition(specs[i].condition, c)
  }

  /** The `g` read that comes first raised on its reply. */
  predicate ReadRaised(captures: seq<string>, replies: seq<string>) {
    "gprs" in captures && replies != [] && Raises(replies[0])
  }

  function CapturesOf(specs: seq<Spec>, id: nat): seq<string> {
    var i := Find(specs, id);
    if i < |specs| then specs[i].captures else []
  }

  function Judged(specs: seq<Spec>, c: Capture, condition: Condition): Verdict {
    match Capturing(specs, c.stop)
    case None => Surfaced
    case Some(id) =>
      if ReadRaised(CapturesOf(specs, id), c.replies) then Died
      else if Passes(specs, id, c, condition) then Logged(id) else Dropped(id)
  }

  function Recorded(specs: seq<Spec>, c: Capture, condition: Condition): seq<Spec> {
    var v := Judged(specs, c, condition);
    if v.Logged? then WithEntry(specs, v.id, c) else specs
  }

  /** The queries a capture needs: `g` for the GPRs, `p43` for LR, one `p` for each FPR. */
  function Queries(captures: seq<string>): (ops: seq<Op>)
    ensures forall op <- ops :: op.Query?
  {
    (if "gprs" in captures then [Query("g")] else [])
    + (if "lr" in captures || "stack" in captures then [Query("p43")] else [])
    + (if "fprs" in captures then seq(32, i requires 0 <= i < 32 => Query("p" + ToHex(0x20 + i))) else [])
  }

  /** Exactly the registers asked for are queried: all GPRs at once and first, then LR (number 0x43), which the
      stack needs too, then the 32 FPRs from number 0x20 on in order. */
  lemma QueriesExactly(captures: seq<string>, i: nat)
    ensures var ops := Queries(captures);
      var gprs, lr, fprs := "gprs" in captures, "lr" in captures || "stack" in captures, "fprs" in captures;
      var g, l := if gprs then 1 else 0, if lr then 1 else 0;
      && |ops| == g + l + (if fprs then 32 else 0)
      && (gprs ==> ops[0] == Query("g")) && (lr ==> ops[g] == Query("p" + ToHex(0x43)))
      && (fprs && i < 32 ==> ops[g + l + i] == Query("p" + ToHex(0x20 + i)))
  {
    hide ToHex;
    assert ToHex(0x43) == "43" by { LinkNumber(); }
  }

  lemma LinkNumber()
    ensures ToHex(0x43) == "43"
  {
  }

  /** The commands sent are the first of `ops`: those answered, and at most one more that was not. */
  predicate SentFor(ops: seq<Op>, before: seq<Op>, after: seq<Op>, answered: nat) {
    var n := |after| - |before|;
    answered <= n <= answered + 1 && n <= |ops| && after == before + ops[..n]
  }

  /** The i-th reply is the packet delivered for the i-th command from number `first` on; on a line that was
      idle it is that command's own reply. */
  predicate Answered(now: seq<Delivery>, before: seq<Delivery>, first: nat, replies: seq<string>, idle: bool) {
    && |now| == |before| + |replies| && before <= now
    && forall i :: 0 <= i < |replies| ==> AnswerTo(now[|before| + i], first + i, replies[i], idle)
  }

  predicate AnswerTo(d: Delivery, serial: nat, text: string, idle: bool) {
    d.serial == serial && TextOf(d.got) == text && (idle ==> d.got.Reply? && d.got.serial == serial)
  }

  lemma OneMoreAnswer(now: seq<Delivery>, now': seq<Delivery>, before: seq<Delivery>, first: nat, replies: seq<string>,
                      idle: bool, text: string)
    requires Answered(now, before, first, replies, idle) && now <= now' && |now'| == |now| + 1
    requires AnswerTo(now'[|now|], first + |replies|, text, idle)
    ensures Answered(now', before, first, replies + [text], idle)
  {
    hide AnswerTo;
    forall i | 0 <= i <= |replies| ensures AnswerTo(now'[|before| + i], first + i, (replies + [text])[i], idle) {
      if i < |replies| {
        assert now'[|before| + i] == now[|before| + i];
      } else {
        assert |before| + i == |now|;
      }
    }
  }

  lemma AnsweredAlso(now: seq<Delivery>, before: seq<Delivery>, first: nat, replies: seq<string>, idle: bool,
                     idle': bool)
    requires Answered(now, before, first, replies, idle) && (idle' ==> idle)
    ensures Answered(now, before, first, replies, idle')
  {
  }

  /** `g` is asked for exactly when GPRs are captured, and then first. */
  lemma GprsFirst(captures: seq<string>)
    ensures "gprs" in captures ==> Queries(captures) != [] && Queries(captures)[0] == Query("g")
    ensures forall i :: 0 <= i < |Queries(captures)| && Queries(captures)[i] == Query("g") ==>
      i == 0 && "gprs" in captures
  {
  }

  lemma {:induction false} QueriesDoNotContinue(captures: seq<string>, n: nat)
    requires n <= |Queries(captures)|
    ensures Continues(Queries(captures)[..n]) == 0 && Asked(Queries(captures)[..n]) == []
  {
    hide Queries;
    if n == 0 {
    } else {
      QueriesDoNotContinue(captures, n - 1);
      assert Queries(captures)[..n][..n - 1] == Queries(captures)[..n - 1];
      assert Queries(captures)[n - 1] in Queries(captures);
    }
  }

  /** What becomes of a stop and of the registry `specs`.  If a spec captures it: the thread dies when a read
      raised; else the capture goes into the log of that spec, and is counted, if its condition is empty or holds;
      else it is dropped.  If none does, it is surfaced. */
  ghost predicate HandledAs(verdict: Verdict, c: Capture, condition: Condition, specs: seq<Spec>, specs': seq<Spec>,
                            hits: int) {
    && (forall i :: IsCapturing(specs, c.stop, i) ==>
      if "gprs" in specs[i].captures && c.replies != [] && Raises(c.replies[0]) then
        verdict == Died && specs' == specs && hits == 0
      else if specs[i].condition == "" || condition(specs[i].condition, c) then
        verdict == Logged(specs[i].id) && hits == 1 && specs' == specs[i := specs[i].(log := specs[i].log + [c])]
      else verdict == Dropped(specs[i].id) && specs' == specs && hits == 0)
    && ((forall i :: !IsCapturing(specs, c.stop, i)) ==> verdict == Surfaced && specs' == specs && hits == 0)
  }

  lemma HandledIs(specs: seq<Spec>, c: Capture, condition: Condition)
    ensures var v := Judged(specs, c, condition);
      HandledAs(v, c, condition, specs, Recorded(specs, c, condition), if v.Logged? then 1 else 0)
  {
    hide Capturing, IsCapturing;
    var v := Judged(specs, c, condition);
    if Capturing(specs, c.stop).Some? {
      CapturingFound(specs, c.stop);
    }
    forall i ensures IsCapturing(specs, c.stop, i) <==>
      Capturing(specs, c.stop).Some? && i == Find(specs, Capturing(specs, c.stop).value)
    {
      CapturingIs(specs, c.stop, i);
    }
  }

  /** No change of a breakpoint was asked for in between. */
  predicate AsksNothing(before: seq<Op>, now: seq<Op>) { before <= now && Asked(now[|before|..]) == [] }

  lemma AsksNothingYet(commands: seq<Op>)
    ensures AsksNothing(commands, commands)
  {
  }

  lemma AsksNothingMore(before: seq<Op>, now: seq<Op>, later: seq<Op>)
    requires AsksNothing(before, now) && AsksNothing(now, later)
    ensures AsksNothing(before, later)
  {
    AskedMore(now[|before|..], later[|now|..]);
    assert later[|before|..] == now[|before|..] + later[|now|..];
  }

  lemma ContinueAsksNothing(commands: seq<Op>)
    ensures AsksNothing(commands, commands + [Continue])
  {
    assert (commands + [Continue])[|commands|..] == [Continue] && [Continue][..0] == [];
  }

  class StopWatcher {
    const session: Session
    var hitsTotal: nat
    var stopRequested: bool
    ghost var judgedOn: seq<seq<Spec>>   // the registry of the session at each stop handled, oldest first

    constructor (session: Session)
      ensures this.session == session && hitsTotal == 0 && !stopRequested && judgedOn == []
    {
      this.session := session;
      hitsTotal, stopRequested, judgedOn := 0, false, [];
    }

    /** Pull the registers a spec asks for, query after query.  A read that times out ends the pulling, not
        the capture; a register dump that is none raises. */
    method Snapshot(captures: seq<string>) returns (replies: seq<string>)
      modifies session.stub
      ensures SentFor(Queries(captures), old(session.stub.commands), session.stub.commands, |replies|)
      ensures Answered(session.stub.delivered, old(session.stub.delivered), old(session.stub.nextSerial), replies,
        old(session.stub.Idle()))
      ensures |replies| < |Queries(captures)| ==>
        ReadRaised(captures, replies)
        || (|session.stub.commands| == |old(session.stub.commands)| + |replies| + 1
            && session.stub.givenUp == old(session.stub.givenUp) + 1)
      ensures session.stub.taken == old(session.stub.taken)
    {
      hide Queries;
      var ops := Queries(captures);
      GprsFirst(captures);
      replies := [];
      ghost var before := session.stub.commands;
      for i := 0 to |ops|
        invariant |replies| == i && session.stub.commands == before + ops[..i]
        invariant session.stub.nextSerial == old(session.stub.nextSerial) + i
        invariant session.stub.taken == old(session.stub.taken)
        invariant session.stub.givenUp == old(session.stub.givenUp)
        invariant Answered(session.stub.delivered, old(session.stub.delivered), old(session.stub.nextSerial), replies,
          old(session.stub.Idle()))
        invariant old(session.stub.Idle()) ==> session.stub.Idle()
      {
        assert ops[..i + 1] == ops[..i] + [ops[i]];
        assert ops[i] in ops;
        ghost var delivered := session.stub.delivered;
        var reply := session.stub.Cmd(ops[i]);
        assert session.stub.commands == before + ops[..i + 1];
        if reply.Err? {
          return;
        }
        OneMoreAnswer(delivered, session.stub.delivered, old(session.stub.delivered), old(session.stub.nextSerial),
          replies, old(session.stub.Idle()), reply.value);
        replies := replies + [reply.value];
        if ops[i] == Query("g") && Raises(reply.value) {
          return;
        }
      }
      assert ops[..|ops|] == ops;
    }

    /** `_handle_stop`: a stop of a spec that captures is logged in its log, and counted, exactly when the reads
        went through and the condition is empty or holds; otherwise nothing changes but that registers may have
        been read.  A stop of no such spec is surfaced and touches nothing.  What is captured beside the stop are
        the replies to the queries sent. */
    method HandleStop(raw: Item, condition: Condition) returns (verdict: Verdict, capture: Capture)
      modifies this`hitsTotal, this`judgedOn, session`breakpoints, session.stub
      ensures judgedOn == old(judgedOn) + [old(session.breakpoints)]
      ensures capture.stop == StopReply.Parse(TextOf(raw))
      ensures verdict == Judged(old(session.breakpoints), capture, condition)
      ensures session.breakpoints == Recorded(old(session.breakpoints), capture, condition)
      ensures HandledAs(verdict, capture, condition, old(session.breakpoints), session.breakpoints,
        hitsTotal - old(hitsTotal))
      ensures verdict.Surfaced? ==> unchanged(session.stub) && capture.replies == []
      ensures Answered(session.stub.delivered, old(session.stub.delivered), old(session.stub.nextSerial),
        capture.replies, old(session.stub.Idle()))
      ensures session.stub.taken == old(session.stub.taken) && old(session.stub.commands) <= session.stub.commands
      ensures Continues(session.stub.commands[|old(session.stub.commands)|..]) == 0
      ensures AsksNothing(old(session.stub.commands), session.stub.commands)
    {
      hide Queries, StopReply.Parse, Attributed, HandledAs;
      ghost var specs := session.breakpoints;
      var parsed := StopReply.ParseStopReply(TextOf(raw));
      capture := Capture(parsed, []);
      judgedOn := judgedOn + [session.breakpoints];
      var matched := MatchBp(parsed, session.breakpoints);
      HandledIs(specs, capture, condition);
      if matched.None? {
        return Surfaced, capture;
      }
      var i := Find(session.breakpoints, matched.value);
      if i == |session.breakpoints| || !session.breakpoints[i].autoContinue {
        return Surfaced, capture;
      }
      var spec := session.breakpoints[i];
      ghost var before := session.stub.commands;
      var replies := Snapshot(spec.captures);
      QueriesDoNotContinue(spec.captures, |session.stub.commands| - |before|);
      assert session.stub.commands[|before|..] == Queries(spec.captures)[..|session.stub.commands| - |before|];
      capture := Capture(parsed, replies);
      HandledIs(specs, capture, condition);
      if "gprs" in spec.captures && replies != [] && Raises(replies[0]) {
        return Died, capture;
      }
      if spec.condition != "" && !condition(spec.condition, capture) {
        return Dropped(spec.id), capture;
      }
      session.breakpoints := session.breakpoints[i := spec.(log := spec.log + [capture])];
      hitsTotal := hitsTotal + 1;
      verdict := Logged(spec.id);
    }

    /** One pass under the lock; `None` is a poll that timed out.  The pass takes one stop from the
        connection.  A stop that is captured or dropped is followed by exactly one `c`; a surfaced one goes
        to the back of the queue, pauses the session and sends nothing; after a raising read nothing else
        is sent. */
    method Iterate(condition: Condition) returns (verdict: Option<Verdict>, capture: Option<Capture>, sent: bool)
      modifies this`hitsTotal, this`judgedOn, session`breakpoints, session`state, session.stub
      ensures verdict.Some? <==> capture.Some?
      ensures judgedOn == old(judgedOn) + if verdict.Some? then [old(session.breakpoints)] else []
      ensures verdict.None? ==> session.breakpoints == old(session.breakpoints) && session.state == old(session.state)
      ensures verdict.None? ==>
        session.stub.commands == old(session.stub.commands) && session.stub.taken == old(session.stub.taken)
        && hitsTotal == old(hitsTotal)
      ensures old(session.stub.pending) != [] ==> verdict.Some?
      ensures verdict.Some? ==>
        TookOne(old(session.stub.taken), session.stub.taken, old(session.stub.pending), capture.value)
      ensures verdict.Some? ==> Answered(session.stub.delivered, old(session.stub.delivered),
        old(session.stub.nextSerial), capture.value.replies, old(session.stub.Idle()))
      ensures verdict.Some? ==> verdict.value == Judged(old(session.breakpoints), capture.value, condition)
      ensures verdict.Some? ==> session.breakpoints == Recorded(old(session.breakpoints), capture.value, condition)
      ensures verdict.Some? ==> hitsTotal == old(hitsTotal) + if verdict.value.Logged? then 1 else 0
      ensures verdict.Some? ==> HandledAs(verdict.value, capture.value, condition, old(session.breakpoints),
        session.breakpoints, hitsTotal - old(hitsTotal))
      ensures old(session.stub.commands) <= session.stub.commands
      ensures Continues(session.stub.commands[|old(session.stub.commands)|..])
        == if verdict.Some? && verdict.value.Consumed() then 1 else 0
      ensures verdict.Some? && verdict.value.Consumed() ==>
        var all := session.stub.commands;
        session.state == old(session.state) && all != [] && all[|all| - 1] == Continue
      ensures verdict == Some(Surfaced) ==>
        session.stub.commands == old(session.stub.commands) && session.state != ConnectedRunning
        && session.stub.pending != []
        && session.stub.pending[|session.stub.pending| - 1] == session.stub.taken[|session.stub.taken| - 1]
        && (old(session.stub.pending) != [] ==>
            session.stub.pending == old(session.stub.pending)[1..] + [old(session.stub.pending)[0]])
      ensures old(session.stub.Idle()) && verdict == Some(Surfaced) ==> session.stub.Idle()
      ensures verdict.Some? && !verdict.value.Consumed() ==> sent
      ensures AsksNothing(old(session.stub.commands), session.stub.commands)
    {
      hide AsksNothing;
      AsksNothingYet(session.stub.commands);
      hide Judged, Recorded, StopReply.Parse, Continues, Answered, HandledAs, SameChange, Later;
      NoContinue(session.stub.commands);
      sent := true;
      var raw := session.stub.WaitForStop();
      if raw.Err? {
        return None, None, sent;
      }
      ghost var before, delivered := session.stub.commands, session.stub.delivered;
      ghost var idle := session.stub.Idle();
      var v, c := HandleStop(raw.value, condition);
      AnsweredAlso(session.stub.delivered, delivered, old(session.stub.nextSerial), c.replies, idle,
        old(session.stub.Idle()));
      if v.Surfaced? {
        Surface(raw.value);
        return Some(v), Some(c), sent;
      }
      if v.Died? {
        return Some(v), Some(c), sent;
      }
      sent := GoOn(before);
      verdict, capture := Some(v), Some(c);
    }

    /** The stop goes to the back of the queue, and the session is paused. */
    method Surface(raw: Item)
      modifies session`state, session.stub`pending
      ensures session.stub.pending == old(session.stub.pending) + [raw] && session.state != ConnectedRunning
    {
      session.stub.pending := session.stub.pending + [raw];
      session.MarkPaused();
    }

    /** The `c` behind a stop that was logged or dropped. */
    method GoOn(ghost before: seq<Op>) returns (sent: bool)
      requires AsksNothing(before, session.stub.commands) && Continues(session.stub.commands[|before|..]) == 0
      modifies session.stub
      ensures session.stub.commands == old(session.stub.commands) + [Continue]
      ensures AsksNothing(before, session.stub.commands) && Continues(session.stub.commands[|before|..]) == 1
      ensures session.stub.taken == old(session.stub.taken) && session.stub.delivered == old(session.stub.delivered)
    {
      hide Continues, Asked, SameChange, Obeyed;
      ghost var queries := session.stub.commands;
      ContinueAsksNothing(queries);
      AsksNothingMore(before, queries, queries + [Continue]);
      var resumed := session.stub.ContinueAsync();
      OneContinue(before, queries, session.stub.commands);
      sent := resumed.Ok?;
    }

    /** Between two passes the tools may do anything to the session and its connection, but its history only
        grows; when the watcher is `alone` they do nothing. */
    method OtherTools(alone: bool)
      modifies session, session.stub
      ensures old(session.stub.commands) <= session.stub.commands && old(session.stub.taken) <= session.stub.taken
      ensures alone ==> unchanged(session) && unchanged(session.stub)
    {
      if alone {
        return;
      }
      var specs: seq<Spec> := *;
      var state: SessionState := *;
      var line: Line := *;
      var pending: seq<Item> := *;
      ghost var commands: seq<Op>, taken: seq<Item> := *, *;
      session.breakpoints, session.state := specs, state;
      session.stub.line, session.stub.pending := line, pending;
      session.stub.commands, session.stub.taken := session.stub.commands + commands, session.stub.taken + taken;
    }

    /** `run`, for any number of passes and whatever the tools do in between.  `spans` says where in the
        history of the connection the passes stand that took a stop.  Every stop taken there is a logged hit,
        a hit dropped by its condition, or the last one, surfaced or killing the thread, which then exits; the
        commands written there contain one `c` for each stop logged or dropped.  Each verdict is the one that
        attribution, replies and condition give on the registry the session had at that stop (`registries`).
        When the watcher is alone, the history has nothing else, and verdicts and registry are what its
        captures make of the registry at the start. */
    method Run(passes: nat, condition: Condition, alone: bool)
      returns (history: seq<Verdict>, captures: seq<Capture>, exited: bool, ghost spans: seq<Span>,
               ghost registries: seq<seq<Spec>>)
      modifies this, session, session.stub
      ensures Accounted(old(session.stub.commands), old(session.stub.taken), session.stub.commands,
        session.stub.taken, spans, history, captures)
      ensures judgedOn == old(judgedOn) + registries
      ensures JudgedOn(history, registries, captures, condition)
      ensures hitsTotal == old(hitsTotal) + Count(history, true)
      ensures |history| == Count(history, true) + Count(history, false) + if Ended(history) then 1 else 0
      ensures forall i :: 0 <= i < |history| - 1 ==> history[i].Consumed()
      ensures Ended(history) ==> exited
      ensures exited ==>
        stopRequested || !AnyAutoContinue(session.breakpoints) || Ended(history)
        || (history != [] && EndsIn(session.stub.commands, [Continue]))
      ensures forall specs <- registries :: AnyAutoContinue(specs)
      ensures alone ==>
        && NothingElse(old(session.stub.commands), old(session.stub.taken), session.stub.commands,
          session.stub.taken, spans)
        && session.breakpoints == RecordedAll(old(session.breakpoints), captures, condition)
        && history == Verdicts(old(session.breakpoints), captures, condition)
        && session.nextId == old(session.nextId) && AsksNothing(old(session.stub.commands), session.stub.commands)
    {
      hide Recorded, Judged, RecordedAll, Continues, Accounted, NothingElse, TookOne, Count, Answered, Verdicts;
      hide JudgedOn, AnyAutoContinue, AsksNothing, HandledAs;
      AsksNothingYet(session.stub.commands);
      history, captures, exited, spans, registries := [], [], false, [], [];
      ghost var commands0, taken0, specs0 := session.stub.commands, session.stub.taken, session.breakpoints;
      NothingYet(commands0, taken0, specs0, condition);
      for n := 0 to passes
        invariant Accounted(commands0, taken0, session.stub.commands, session.stub.taken, spans, history, captures)
        invariant judgedOn == old(judgedOn) + registries
        invariant JudgedOn(history, registries, captures, condition)
        invariant hitsTotal == old(hitsTotal) + Count(history, true)
        invariant |history| == Count(history, true) + Count(history, false)
        invariant forall i :: 0 <= i < |history| ==> history[i].Consumed()
        invariant forall specs <- registries :: AnyAutoContinue(specs)
        invariant alone ==>
          && NothingElse(commands0, taken0, session.stub.commands, session.stub.taken, spans)
          && session.breakpoints == RecordedAll(specs0, captures, condition)
          && history == Verdicts(specs0, captures, condition) && session.nextId == old(session.nextId)
          && AsksNothing(commands0, session.stub.commands)
      {
        ghost var commands, taken := session.stub.commands, session.stub.taken;
        OtherTools(alone);
        StillAccounted(commands0, taken0, commands, taken, session.stub.commands, session.stub.taken, spans, history,
          captures);
        stopRequested := *;
        if stopRequested || !AnyAutoContinue(session.breakpoints) {
          return history, captures, true, spans, registries;
        }
        commands, taken := session.stub.commands, session.stub.taken;
        ghost var queue, specs := session.stub.pending, session.breakpoints;
        var verdict, capture, sent := Iterate(condition);
        if alone {
          AsksNothingMore(commands0, commands, session.stub.commands);
        }
        if verdict.None? {
          continue;
        }
        OneMorePass(commands0, taken0, commands, taken, session.stub.commands, session.stub.taken, spans, history,
          captures, verdict.value, capture.value, queue);
        RecordedSnoc(specs0, captures, capture.value, condition);
        VerdictsSnoc(specs0, captures, capture.value, condition);
        OneMoreJudged(history, registries, captures, condition, verdict.value, specs, capture.value);
        CountSnoc(history, verdict.value);
        spans := spans + [Span(|commands|, |session.stub.commands|, |taken|)];
        history, captures := history + [verdict.value], captures + [capture.value];
        registries := registries + [specs];
        if !verdict.value.Consumed() || !sent {
          return history, captures, true, spans, registries;
        }
      }
    }
  }

  /** The last stop was not followed by a `c`. */
  predicate Ended(history: seq<Verdict>) { history != [] && !history[|history| - 1].Consumed() }

  function Continues(ops: seq<Op>): nat {
    if ops == [] then 0 else Continues(ops[..|ops| - 1]) + if ops[|ops| - 1].Continue? then 1 else 0
  }

  lemma NoContinue(ops: seq<Op>)
    ensures Continues(ops[|ops|..]) == 0
  {
  }

  lemma OneContinue(before: seq<Op>, queries: seq<Op>, after: seq<Op>)
    requires before <= queries && after == queries + [Continue] && Continues(queries[|before|..]) == 0
    ensures before <= after && Continues(after[|before|..]) == 1
  {
    var ops := queries[|before|..];
    assert after[|before|..] == ops + [Continue];
    assert (ops + [Continue])[..|ops|] == ops;
  }

  lemma {:induction false} ContinuesAppend(a: seq<Op>, b: seq<Op>)
    ensures Continues(a + b) == Continues(a) + Continues(b)
  {
    if b == [] {
      assert a + b == a;
    } else {
      assert (a + b)[..|a + b| - 1] == a + b[..|b| - 1];
      ContinuesAppend(a, b[..|b| - 1]);
    }
  }

  /** One stop was taken, the oldest queued one if there was one, and it is the one captured. */
  predicate TookOne(before: seq<Item>, now: seq<Item>, queue: seq<Item>, c: Capture) {
    && |now| == |before| + 1 && before <= now && c.stop == StopReply.Parse(TextOf(now[|before|]))
    && (queue != [] ==> now[|before|] == queue[0])
  }

  /** The i-th capture got the verdict that attribution, replies and condition give on the i-th registry. */
  predicate JudgedOn(history: seq<Verdict>, registries: seq<seq<Spec>>, captures: seq<Capture>,
                     condition: Condition) {
    && |history| == |registries| == |captures|
    && forall i :: 0 <= i < |history| ==> history[i] == Judged(registries[i], captures[i], condition)
  }

  lemma OneMoreJudged(history: seq<Verdict>, registries: seq<seq<Spec>>, captures: seq<Capture>, condition: Condition,
                      verdict: Verdict, specs: seq<Spec>, capture: Capture)
    requires JudgedOn(history, registries, captures, condition) && verdict == Judged(specs, capture, condition)
    ensures JudgedOn(history + [verdict], registries + [specs], captures + [capture], condition)
  {
    hide Judged;
  }

  /** The watcher dies of a stop exactly when the spec it is captured for asks for GPRs and the first reply
      makes the read raise; so without such a reply nothing dies. */
  lemma DiesExactly(specs: seq<Spec>, c: Capture, condition: Condition)
    ensures Judged(specs, c, condition).Died? <==>
      var id := Capturing(specs, c.stop);
      id.Some? && "gprs" in CapturesOf(specs, id.value) && c.replies != [] && Raises(c.replies[0])
  {
  }

  lemma NothingDies(history: seq<Verdict>, registries: seq<seq<Spec>>, captures: seq<Capture>, condition: Condition)
    requires JudgedOn(history, registries, captures, condition)
    requires forall c <- captures :: c.replies != [] ==> !Raises(c.replies[0])
    ensures Died !in history
  {
    hide Judged;
    forall i | 0 <= i < |history| ensures !history[i].Died? {
      DiesExactly(registries[i], captures[i], condition);
      assert captures[i] in captures;
    }
  }

  /** Where one pass stands in the history of the connection: the commands it wrote, the stop it took. */
  datatype Span = Span(from: nat, to: nat, stop: nat)

  /** The spans lie in the history after the start, one behind the other. */
  predicate InHistory(spans: seq<Span>, commands0: seq<Op>, taken0: seq<Item>, commands: seq<Op>, taken: seq<Item>) {
    && commands0 <= commands && taken0 <= taken
    && (forall i :: 0 <= i < |spans| ==>
      |commands0| <= spans[i].from <= spans[i].to <= |commands| && |taken0| <= spans[i].stop < |taken|)
    && forall i, j :: 0 <= i < j < |spans| ==> spans[i].to <= spans[j].from && spans[i].stop < spans[j].stop
  }

  /** The commands written in the spans. */
  function Wrote(spans: seq<Span>, commands: seq<Op>): seq<Op> {
    if spans == [] then []
    else
      var last := spans[|spans| - 1];
      Wrote(spans[..|spans| - 1], commands)
      + if last.from <= last.to <= |commands| then commands[last.from..last.to] else []
  }

  /** The stops taken in the spans. */
  function Took(spans: seq<Span>, taken: seq<Item>): seq<Item> {
    if spans == [] then []
    else
      var last := spans[|spans| - 1];
      Took(spans[..|spans| - 1], taken) + if last.stop < |taken| then [taken[last.stop]] else []
  }

  predicate Captured(captures: seq<Capture>, stops: seq<Item>) {
    |captures| == |stops| && forall i :: 0 <= i < |captures| ==> captures[i].stop == StopReply.Parse(TextOf(stops[i]))
  }

  /** The watcher's account: its spans lie in the history of the connection, the commands written there
      contain one `c` for each stop logged or dropped, and the stops taken there are those captured, one for
      each verdict. */
  predicate Accounted(commands0: seq<Op>, taken0: seq<Item>, commands: seq<Op>, taken: seq<Item>, spans: seq<Span>,
                      history: seq<Verdict>, captures: seq<Capture>) {
    && InHistory(spans, commands0, taken0, commands, taken)
    && Continues(Wrote(spans, commands)) == Count(history, true) + Count(history, false)
    && Captured(captures, Took(spans, taken)) && |Took(spans, taken)| == |history|
  }

  predicate NothingElse(commands0: seq<Op>, taken0: seq<Item>, commands: seq<Op>, taken: seq<Item>,
                        spans: seq<Span>) {
    commands == commands0 + Wrote(spans, commands) && taken == taken0 + Took(spans, taken)
  }

  lemma NothingYet(commands: seq<Op>, taken: seq<Item>, specs: seq<Spec>, condition: Condition)
    ensures Accounted(commands, taken, commands, taken, [], [], []) && NothingElse(commands, taken, commands, taken, [])
    ensures RecordedAll(specs, [], condition) == specs && Verdicts(specs, [], condition) == []
    ensures JudgedOn([], [], [], condition) && Count([], true) == Count([], false) == 0
  {
  }

  /** More history leaves the spans and what is in them as they are. */
  lemma {:induction false} Unmoved(spans: seq<Span>, commands0: seq<Op>, taken0: seq<Item>, commands: seq<Op>,
                                   taken: seq<Item>, commands': seq<Op>, taken': seq<Item>)
    requires InHistory(spans, commands0, taken0, commands, taken) && commands <= commands' && taken <= taken'
    ensures InHistory(spans, commands0, taken0, commands', taken')
    ensures Wrote(spans, commands') == Wrote(spans, commands) && Took(spans, taken') == Took(spans, taken)
  {
    InHistoryMore(spans, commands0, taken0, commands, taken, commands', taken');
    if spans == [] {
    } else {
      var last := spans[|spans| - 1];
      InHistoryInit(spans, commands0, taken0, commands, taken);
      hide InHistory;
      Unmoved(spans[..|spans| - 1], commands0, taken0, commands, taken, commands', taken');
      assert commands'[last.from..last.to] == commands[last.from..last.to];
    }
  }

  lemma InHistoryMore(spans: seq<Span>, commands0: seq<Op>, taken0: seq<Item>, commands: seq<Op>, taken: seq<Item>,
                      commands': seq<Op>, taken': seq<Item>)
    requires InHistory(spans, commands0, taken0, commands, taken) && commands <= commands' && taken <= taken'
    ensures InHistory(spans, commands0, taken0, commands', taken')
  {
  }

  lemma InHistoryInit(spans: seq<Span>, commands0: seq<Op>, taken0: seq<Item>, commands: seq<Op>, taken: seq<Item>)
    requires InHistory(spans, commands0, taken0, commands, taken) && spans != []
    ensures InHistory(spans[..|spans| - 1], commands0, taken0, commands, taken)
    ensures var last := spans[|spans| - 1]; last.from <= last.to <= |commands| && last.stop < |taken|
  {
  }

  lemma StillAccounted(commands0: seq<Op>, taken0: seq<Item>, commands: seq<Op>, taken: seq<Item>, commands': seq<Op>,
                       taken': seq<Item>, spans: seq<Span>, history: seq<Verdict>, captures: seq<Capture>)
    requires Accounted(commands0, taken0, commands, taken, spans, history, captures)
    requires commands <= commands' && taken <= taken'
    ensures Accounted(commands0, taken0, commands', taken', spans, history, captures)
  {
    hide InHistory, Continues, Wrote, Took;
    Unmoved(spans, commands0, taken0, commands, taken, commands', taken');
  }

  lemma OneMoreSpan(spans: seq<Span>, commands0: seq<Op>, taken0: seq<Item>, commands: seq<Op>, taken: seq<Item>,
                    commands': seq<Op>, taken': seq<Item>)
    requires InHistory(spans, commands0, taken0, commands', taken')
    requires InHistory(spans, commands0, taken0, commands, taken)
    requires commands <= commands' && taken <= taken' && |taken'| == |taken| + 1
    ensures InHistory(spans + [Span(|commands|, |commands'|, |taken|)], commands0, taken0, commands', taken')
  {
  }

  lemma LastSpan(spans: seq<Span>, commands: seq<Op>, taken: seq<Item>, last: Span)
    requires last.from <= last.to == |commands| && last.stop == |taken| - 1
    ensures Wrote(spans + [last], commands) == Wrote(spans, commands) + commands[last.from..]
    ensures Took(spans + [last], taken) == Took(spans, taken) + [taken[last.stop]]
  {
    assert (spans + [last])[..|spans|] == spans;
    assert commands[last.from..last.to] == commands[last.from..];
  }

  /** One pass adds its stop and its `c` to the account, and nothing else to a history without tools. */
  lemma OneMorePass(commands0: seq<Op>, taken0: seq<Item>, commands: seq<Op>, taken: seq<Item>, commands': seq<Op>,
                    taken': seq<Item>, spans: seq<Span>, history: seq<Verdict>, captures: seq<Capture>,
                    verdict: Verdict, capture: Capture, queue: seq<Item>)
    requires Accounted(commands0, taken0, commands, taken, spans, history, captures)
    requires commands <= commands' && TookOne(taken, taken', queue, capture)
    requires Continues(commands'[|commands|..]) == if verdict.Consumed() then 1 else 0
    ensures var spans' := spans + [Span(|commands|, |commands'|, |taken|)];
      && Accounted(commands0, taken0, commands', taken', spans', history + [verdict], captures + [capture])
      && (NothingElse(commands0, taken0, commands, taken, spans) ==>
          NothingElse(commands0, taken0, commands', taken', spans'))
  {
    hide Continues, Count, InHistory, Wrote, Took;
    var last := Span(|commands|, |commands'|, |taken|);
    Unmoved(spans, commands0, taken0, commands, taken, commands', taken');
    OneMoreSpan(spans, commands0, taken0, commands, taken, commands', taken');
    LastSpan(spans, commands', taken', last);
    ContinuesAppend(Wrote(spans, commands), commands'[|commands|..]);
    CountSnoc(history, verdict);
    assert commands' == commands + commands'[|commands|..] && taken' == taken + [taken'[|taken|]];
  }

  predicate AnyAutoContinue(specs: seq<Spec>) {
    exists i :: 0 <= i < |specs| && specs[i].autoContinue
  }

  /** The number of logged hits, or of dropped ones. */
  function Count(history: seq<Verdict>, logged: bool): nat {
    if history == [] then 0
    else (if (if logged then history[0].Logged? else history[0].Dropped?) then 1 else 0) + Count(history[1..], logged)
  }

  lemma {:induction false} CountSnoc(history: seq<Verdict>, v: Verdict)
    ensures Count(history + [v], true) == Count(history, true) + if v.Logged? then 1 else 0
    ensures Count(history + [v], false) == Count(history, false) + if v.Dropped? then 1 else 0
  {
    if history == [] {
      assert [v][1..] == [];
    } else {
      assert (history + [v])[1..] == history[1..] + [v];
      CountSnoc(history[1..], v);
    }
  }

  // ---- the logs after a run ----

  /** The registry after the watcher has handled these stops one after the other. */
  function RecordedAll(specs: seq<Spec>, cs: seq<Capture>, condition: Condition): seq<Spec>
    decreases |cs|
  {
    if cs == [] then specs else RecordedAll(Recorded(specs, cs[0], condition), cs[1..], condition)
  }

  lemma {:induction false} RecordedSnoc(specs: seq<Spec>, cs: seq<Capture>, c: Capture, condition: Condition)
    ensures RecordedAll(specs, cs + [c], condition) == Recorded(RecordedAll(specs, cs, condition), c, condition)
    decreases |cs|
  {
    hide Recorded;
    if cs == [] {
      assert [c][1..] == [] && [] + [c] == [c];
    } else {
      assert (cs + [c])[1..] == cs[1..] + [c];
      RecordedSnoc(Recorded(specs, cs[0], condition), cs[1..], c, condition);
    }
  }

  /** The verdicts of these stops, each on the registry that those before it leave. */
  function Verdicts(specs: seq<Spec>, cs: seq<Capture>, condition: Condition): (r: seq<Verdict>)
    ensures |r| == |cs|
    decreases |cs|
  {
    if cs == [] then []
    else [Judged(specs, cs[0], condition)] + Verdicts(Recorded(specs, cs[0], condition), cs[1..], condition)
  }

  lemma {:induction false} VerdictsSnoc(specs: seq<Spec>, cs: seq<Capture>, c: Capture, condition: Condition)
    ensures Verdicts(specs, cs + [c], condition)
      == Verdicts(specs, cs, condition) + [Judged(RecordedAll(specs, cs, condition), c, condition)]
    decreases |cs|
  {
    hide Recorded, Judged;
    if cs == [] {
      assert [c][1..] == [] && [] + [c] == [c];
    } else {
      assert (cs + [c])[1..] == cs[1..] + [c];
      VerdictsSnoc(Recorded(specs, cs[0], condition), cs[1..], c, condition);
    }
  }

  /** The number of entries in all logs. */
  function Entries(specs: seq<Spec>): nat {
    if specs == [] then 0 else |specs[0].log| + Entries(specs[1..])
  }

  lemma {:induction false} OneMoreEntry(specs: seq<Spec>, i: nat, c: Capture)
    requires i < |specs|
    ensures Entries(specs[i := specs[i].(log := specs[i].log + [c])]) == Entries(specs) + 1
  {
    var now := specs[i := specs[i].(log := specs[i].log + [c])];
    if i == 0 {
      assert now[1..] == specs[1..];
    } else {
      assert now[1..] == specs[1..][i - 1 := specs[i].(log := specs[i].log + [c])];
      OneMoreEntry(specs[1..], i - 1, c);
    }
  }

  lemma RecordedEntries(specs: seq<Spec>, c: Capture, condition: Condition)
    ensures Entries(Recorded(specs, c, condition))
      == Entries(specs) + if Judged(specs, c, condition).Logged? then 1 else 0
  {
    hide Attributed, Passes, ReadRaised, Entries;
    var v := Judged(specs, c, condition);
    if v.Logged? {
      OneMoreEntry(specs, Find(specs, v.id), c);
    }
  }

  /** The hits a watcher counts are the entries it adds to the logs. */
  lemma {:induction false} HitsAreEntries(specs: seq<Spec>, cs: seq<Capture>, condition: Condition)
    ensures Entries(RecordedAll(specs, cs, condition)) == Entries(specs) + Count(Verdicts(specs, cs, condition), true)
    decreases |cs|
  {
    hide Recorded, Judged, Entries;
    if cs == [] {
    } else {
      RecordedEntries(specs, cs[0], condition);
      HitsAreEntries(Recorded(specs, cs[0], condition), cs[1..], condition);
      assert Verdicts(specs, cs, condition)[1..] == Verdicts(Recorded(specs, cs[0], condition), cs[1..], condition);
    }
  }

  /** Everything about a spec but its log. */
  function Bare(specs: seq<Spec>): (bare: seq<Spec>)
    ensures |bare| == |specs|
    ensures forall i :: 0 <= i < |specs| ==> bare[i] == specs[i].(log := [])
  {
    if specs == [] then [] else [specs[0].(log := [])] + Bare(specs[1..])
  }

  /** The capture is meant for the spec with that id: its stop is attributed to it, it is auto-continuing, the
      reads went through, and its condition is empty or holds. */
  predicate Meant(specs: seq<Spec>, c: Capture, condition: Condition, id: nat) {
    exists i :: 0 <= i < |specs| && IsCapturing(specs, c.stop, i) && specs[i].id == id
      && !("gprs" in specs[i].captures && c.replies != [] && Raises(c.replies[0]))
      && (specs[i].condition == "" || condition(specs[i].condition, c))
  }

  /** The captures meant for spec `id`, in arrival order. */
  function MeantFor(specs: seq<Spec>, cs: seq<Capture>, condition: Condition, id: nat): seq<Capture> {
    if cs == [] then []
    else Entry(specs, cs[0], condition, id) + MeantFor(specs, cs[1..], condition, id)
  }

  function Entry(specs: seq<Spec>, c: Capture, condition: Condition, id: nat): seq<Capture> {
    if Meant(specs, c, condition, id) then [c] else []
  }

  lemma CapturingIs(specs: seq<Spec>, p: StopReply.Reply, i: int)
    ensures IsCapturing(specs, p, i) <==>
      Capturing(specs, p).Some? && i == Find(specs, Capturing(specs, p).value)
  {
    hide Attributed;
  }

  /** A capture is meant for a spec exactly when it is logged for it. */
  lemma MeantIsLogged(specs: seq<Spec>, c: Capture, condition: Condition, id: nat)
    ensures Meant(specs, c, condition, id) <==> Judged(specs, c, condition) == Logged(id)
  {
    hide Capturing, IsCapturing;
    var v := Judged(specs, c, condition);
    if Capturing(specs, c.stop).Some? {
      CapturingFound(specs, c.stop);
    }
    forall i ensures IsCapturing(specs, c.stop, i) <==>
      Capturing(specs, c.stop).Some? && i == Find(specs, Capturing(specs, c.stop).value)
    {
      CapturingIs(specs, c.stop, i);
    }
  }

  lemma CapturingFound(specs: seq<Spec>, p: StopReply.Reply)
    requires Capturing(specs, p).Some?
    ensures Find(specs, Capturing(specs, p).value) < |specs|
  {
    hide Attributed;
  }

  lemma {:induction false} LogsDoNotMatter(specs: seq<Spec>, specs': seq<Spec>, p: StopReply.Reply, rule: Rule, id: nat)
    requires Bare(specs) == Bare(specs')
    ensures Fitting(specs, p, rule) == Fitting(specs', p, rule) && Find(specs, id) == Find(specs', id)
  {
    if specs == [] {
    } else {
      assert Bare(specs)[0] == specs[0].(log := []) && Bare(specs')[0] == specs'[0].(log := []);
      assert Bare(specs[1..]) == Bare(specs)[1..] == Bare(specs')[1..] == Bare(specs'[1..]);
      LogsDoNotMatter(specs[1..], specs'[1..], p, rule, id);
    }
  }

  lemma SameVerdict(specs: seq<Spec>, specs': seq<Spec>, c: Capture, condition: Condition)
    requires Bare(specs) == Bare(specs')
    ensures Judged(specs, c, condition) == Judged(specs', c, condition)
  {
    hide Bare, Fitting, Find;
    LogsDoNotMatter(specs, specs', c.stop, Annotation, 0);
    LogsDoNotMatter(specs, specs', c.stop, ProgramCounter, 0);
    LogsDoNotMatter(specs, specs', c.stop, AnyWatchpoint, 0);
    var a := Attributed(specs, c.stop);
    if a.Some? {
      LogsDoNotMatter(specs, specs', c.stop, Annotation, a.value);
      var i := Find(specs, a.value);
      if i < |specs| {
        assert Bare(specs)[i] == Bare(specs')[i];
      }
    }
  }

  lemma RecordedKeepsBare(specs: seq<Spec>, c: Capture, condition: Condition)
    ensures Bare(Recorded(specs, c, condition)) == Bare(specs)
  {
  }

  lemma {:induction false} MeantForBare(specs: seq<Spec>, specs': seq<Spec>, cs: seq<Capture>, condition: Condition,
                                        id: nat)
    requires Bare(specs) == Bare(specs')
    ensures MeantFor(specs, cs, condition, id) == MeantFor(specs', cs, condition, id)
  {
    if cs == [] {
    } else {
      SameVerdict(specs, specs', cs[0], condition);
      MeantIsLogged(specs, cs[0], condition, id);
      MeantIsLogged(specs', cs[0], condition, id);
      hide Judged, Meant, Bare;
      MeantForBare(specs, specs', cs[1..], condition, id);
    }
  }

  /** After any sequence of stops the log of every spec has grown by exactly the captures attributed to
      it that its condition lets through, in arrival order, and nothing else in the registry changed. */
  lemma {:induction false} LogsInOrder(specs: seq<Spec>, cs: seq<Capture>, condition: Condition, i: nat, nextId: nat)
    requires i < |specs| && WellNumbered(specs, nextId)
    ensures Bare(RecordedAll(specs, cs, condition)) == Bare(specs) && i < |RecordedAll(specs, cs, condition)|
    ensures RecordedAll(specs, cs, condition)[i].log == specs[i].log + MeantFor(specs, cs, condition, specs[i].id)
    decreases |cs|
  {
    hide Recorded, WellNumbered, Bare, Entry;
    if cs != [] {
      var r, id := Recorded(specs, cs[0], condition), specs[i].id;
      RecordedKeepsBare(specs, cs[0], condition);
      BareNumbered(specs, r, nextId);
      OneEntry(specs, cs[0], condition, i, nextId);
      LogsInOrder(r, cs[1..], condition, i, nextId);
      MeantForBare(specs, r, cs[1..], condition, id);
      assert specs[i].log + Entry(specs, cs[0], condition, id) + MeantFor(r, cs[1..], condition, id)
        == specs[i].log + MeantFor(specs, cs, condition, id);
    } else {
      assert RecordedAll(specs, cs, condition) == specs;
    }
  }

  lemma OneEntry(specs: seq<Spec>, c: Capture, condition: Condition, i: nat, nextId: nat)
    requires i < |specs| && WellNumbered(specs, nextId)
    ensures var r := Recorded(specs, c, condition);
      |r| == |specs| && r[i].id == specs[i].id && r[i].log == specs[i].log + Entry(specs, c, condition, specs[i].id)
  {
    MeantIsLogged(specs, c, condition, specs[i].id);
    hide Meant, Attributed, ReadRaised, Passes;
  }

  lemma BareNumbered(specs: seq<Spec>, specs': seq<Spec>, nextId: nat)
    requires WellNumbered(specs, nextId) && Bare(specs) == Bare(specs')
    ensures WellNumbered(specs', nextId)
  {
  }
}
