/** The tools and the watcher of the source as programs over the shared line. */
module Tools {
  import opened Wire
  import opened Interleaving

  // ---- building blocks ----

  /** One command and its reply; a timeout at either raises to `late`. */
  function Exchange(op: Op, next: Prog, late: Prog): Prog { Send(op, GetAck(GetReply(next, late), late)) }

  /** Commands one after the other; an error reply or a timeout makes the rest raise and go to `after`. */
  function Commands(ops: seq<Op>, after: Prog): Prog {
    if ops == [] then after else Exchange(ops[0], Choose(Commands(ops[1..], after), after), after)
  }

  function Unlock(): Prog { Release(Done) }

  /** `probe_responsive`; a failed probe puts the session in ERROR and raises StubWedged. */
  function Probe(next: Prog): Prog {
    var failed := MarkError(Unlock());
    Exchange(Heartbeat, Choose(next, failed), failed)
  }

  /** `drain_stop_replies`. */
  function DrainStops(next: Prog): Prog { Clear(Sweep(next)) }

  /** `continue_async`. */
  function Resumed(next: Prog, late: Prog): Prog { Send(Continue, GetAck(next, late)) }

  // ---- execution_tools.py ----

  /** `pause`: probe, drain, interrupt and wait, once more after a timeout, then give up. */
  function Pause(): Prog {
    var took := MarkPaused(Unlock());
    Acquire(Probe(DrainStops(Interrupt(Wait(took, Interrupt(Wait(took, Unlock())))))))
  }

  function Resume(): Prog { IfRunning(Done, Acquire(Resumed(MarkRunning(Unlock()), Unlock()))) }

  /** `get_pc`, `get_gprs`, `get_sprs` and the other register tools. */
  function Registers(ops: seq<Op>): Prog { Acquire(Commands(ops, Unlock())) }

  function StepInstruction(): Prog {
    Acquire(Send(StepOne, GetAck(Wait(MarkPaused(Unlock()), Unlock()), Unlock())))
  }

  /** The wait inside `step_over`, `step_out` and `run_until`. */
  function AwaitStop(): Prog { Acquire(Wait(MarkPaused(Unlock()), Unlock())) }

  // ---- breakpoint_tools.py ----

  function WaitForHit(): Prog { IfRunning(AwaitStop(), Done) }

  /** `_quiesce_for_modify`: interrupt, consume stops, drain, fence with the heartbeat, whose failure is
      only logged. */
  function Quiesce(next: Prog): Prog {
    Interrupt(Sweep(DrainStops(Exchange(Heartbeat, MarkPaused(next), MarkPaused(next)))))
  }

  /** From a RUNNING session to the protected block `body`. */
  function Enter(body: Prog): Prog { Probe(Quiesce(DrainStops(MarkPaused(Claim(Fenced, body))))) }

  /** From the protected block back to a RUNNING session. */
  function Leave(): Prog { DrainStops(Resumed(MarkRunning(Claim(Restored, Unlock())), Unlock())) }

  /** `_safe_to_modify` around the commands `ops`, which may stop early by raising. */
  function SafeToModify(ops: seq<Op>): Prog {
    Acquire(IfRunning(Enter(Commands(ops, Leave())), Commands(ops, Unlock())))
  }

  /** `_safe_to_modify` entered again inside the block of another one, which goes on with `after`. */
  function Again(inner: seq<Op>, after: Prog): Prog {
    var resume := DrainStops(Resumed(MarkRunning(Release(after)), Release(after)));
    Acquire(Claim(Nested, IfRunning(Enter(Commands(inner, resume)), Commands(inner, Release(after)))))
  }

  function NestedModify(outer: seq<Op>, inner: seq<Op>): Prog {
    Acquire(IfRunning(Enter(Commands(outer, Again(inner, Leave()))), Commands(outer, Unlock())))
  }

  // ---- stop_watcher.py ----

  /** The register reads of a capture.  A read that times out ends them; only `read_registers` raises on
      its reply, with an exception that the watcher does not catch and dies of. */
  function Reads(queries: seq<Op>, after: Prog): Prog {
    if queries == [] then after
    else
      var rest := Reads(queries[1..], after);
      Exchange(queries[0], if queries[0] == Query("g") then OnReply(rest, Unlock()) else rest, after)
  }

  /** `c`, and out of the lock. */
  function WentOnBehind(): Prog { Resumed(Claim(WentOn, Unlock()), Unlock()) }

  /** One iteration: wait; surface the stop and exit, or read registers, log and continue. */
  function WatcherIteration(queries: seq<Op>): Prog {
    Acquire(Wait(
      Choose(Requeue(MarkPaused(Unlock())), Reads(queries, WentOnBehind())),
      Unlock()))
  }

  // ---- each of them is disciplined ----

  predicate AllReply(ops: seq<Op>) { forall i :: 0 <= i < |ops| ==> ops[i].Replies() }

  /** One exchange, judged by what is known after it. */
  lemma ExchangeDisciplined(op: Op, next: Prog, late: Prog, k: Know)
    requires op.Replies() && k.Inside? && k.depth > 0 && k.phase.Free?
    requires var h := k.halting || k.still;
      Disciplined(next, k.(halting := h, still := h, swept := k.swept && k.still, resumed := false))
    ensures Disciplined(Exchange(op, next, late), k)
  {
    var k1 := AfterSend(k, op);
    var k2 := k1.(phase := AwaitReply);
    assert Disciplined(GetReply(next, late), k2);
    assert Disciplined(GetAck(GetReply(next, late), late), k1);
  }

  /** The same knowledge without anything commands may change. */
  function Weak(k: Know): (w: Know)
    requires k.Inside?
    ensures w.Inside?
  {
    k.(still := false, halting := false, swept := false, resumed := false)
  }

  /** `k'` knows at least what `k` knows. */
  predicate Extends(k': Know, k: Know) {
    k'.Inside? && k.Inside? && k'.depth == k.depth && k'.phase == k.phase
    && (k.covered ==> k'.covered) && (k.accounted ==> k'.accounted)
    && (k.mode == k'.mode || k.mode.AnyMode? || (k.mode.NotRunning? && k'.mode.IsPaused?))
    && (k.halting ==> k'.halting) && (k.still ==> k'.still) && (k.swept ==> k'.swept) && (k.holding ==> k'.holding)
    && (k.resumed ==> k'.resumed)
  }

  lemma PermittedExtends(p: Prog, k: Know, k': Know)
    requires Extends(k', k) && Permitted(p, k)
    ensures Permitted(p, k')
  {
  }

  lemma SentExtends(k: Know, k': Know, op: Op)
    requires Extends(k', k)
    ensures Extends(AfterSend(k', op), AfterSend(k, op))
  {
  }

  lemma ReleaseExtends(p: Prog, k: Know, k': Know, taken: bool, running: bool)
    requires Extends(k', k) && k.depth > 0 && p.Release?
    ensures if k.depth == 1 then Learned(k', p, taken, running) == Learned(k, p, taken, running) == Outside
      else Extends(Learned(k', p, taken, running), Learned(k, p, taken, running))
  {
  }

  lemma AckExtends(k: Know, k': Know)
    requires Extends(k', k) && k.phase.AwaitAck?
    ensures Extends(AfterAckRead(k'), AfterAckRead(k))
  {
    if k.phase.op.Replies() {
      assert Extends(k'.(phase := AwaitReply), k.(phase := AwaitReply));
    } else {
      var l := k.(phase := Free, covered := true, accounted := true, resumed := k.phase.op.Continue?);
      var l' := k'.(phase := Free, covered := true, accounted := true, resumed := k.phase.op.Continue?);
      assert Extends(l', l);
    }
  }

  lemma QueueExtends(p: Prog, k: Know, k': Know, taken: bool, running: bool)
    requires Extends(k', k) && (p.Wait? || p.Clear? || p.Sweep? || p.Requeue? || p.Interrupt? || p.GetReply?)
    ensures Extends(Learned(k', p, taken, running), Learned(k, p, taken, running))
  {
    hide AfterSend, AfterAckRead;
  }

  lemma MarkExtends(p: Prog, k: Know, k': Know, taken: bool, running: bool)
    requires Extends(k', k) && (p.MarkPaused? || p.MarkError? || p.MarkRunning?)
    ensures Extends(Learned(k', p, taken, running), Learned(k, p, taken, running))
  {
    hide AfterSend, AfterAckRead;
  }

  lemma LookExtends(p: Prog, k: Know, k': Know, taken: bool, running: bool)
    requires Extends(k', k) && p.IfRunning?
    ensures Extends(Learned(k', p, taken, running), Learned(k, p, taken, running))
  {
    hide AfterSend, AfterAckRead;
  }

  lemma BranchExtends(p: Prog, k: Know, k': Know, taken: bool, running: bool)
    requires Extends(k', k) && (p.Done? || p.Acquire? || p.OnReply? || p.Choose? || p.Claim?)
    ensures Extends(Learned(k', p, taken, running), Learned(k, p, taken, running))
  {
    hide AfterSend, AfterAckRead;
  }

  lemma LearnedExtends(p: Prog, k: Know, k': Know, taken: bool, running: bool)
    requires Extends(k', k) && Permitted(p, k)
    ensures Permitted(p, k')
    ensures Extends(Learned(k', p, taken, running), Learned(k, p, taken, running))
      || Learned(k', p, taken, running) == Learned(k, p, taken, running) == Outside
  {
    PermittedExtends(p, k, k');
    assert k.Inside? && k.depth > 0;
    assert p.GetAck? ==> k.phase.AwaitAck? && k'.phase.AwaitAck?;
    hide Permitted, Extends, AfterSend, AfterAckRead;
    match p
    case Release(_) => ReleaseExtends(p, k, k', taken, running);
    case Send(op, _) => SentExtends(k, k', op);
    case GetAck(_, _) => AckExtends(k, k');
    case _ =>
      if p.Wait? || p.Clear? || p.Sweep? || p.Requeue? || p.Interrupt? || p.GetReply? {
        QueueExtends(p, k, k', taken, running);
      } else if p.MarkPaused? || p.MarkError? || p.MarkRunning? {
        MarkExtends(p, k, k', taken, running);
      } else if p.IfRunning? {
        LookExtends(p, k, k', taken, running);
      } else {
        BranchExtends(p, k, k', taken, running);
      }
  }

  /** Knowing more never hurts. */
  lemma {:induction false} MoreKnown(p: Prog, k: Know, k': Know)
    requires (Extends(k', k) || k' == k) && Disciplined(p, k)
    ensures Disciplined(p, k')
    decreases p
  {
    hide Learned, Permitted, Extends;
    if k != k' {
      LearnedExtends(p, k, k', true, true);
      LearnedExtends(p, k, k', true, false);
      LearnedExtends(p, k, k', false, true);
      match p
      case Done =>
      case Wait(got, quiet) =>
        MoreKnown(got, Learned(k, p, true, true), Learned(k', p, true, true));
        MoreKnown(quiet, Learned(k, p, false, true), Learned(k', p, false, true));
      case IfRunning(yes, no) =>
        HaltedExtends(k', k);
        if !k.NowHalted() {
          MoreKnown(yes, Learned(k, p, true, true), Learned(k', p, true, true));
        }
        MoreKnown(no, Learned(k, p, true, false), Learned(k', p, true, false));
      case OnReply(good, bad) =>
        MoreKnown(good, Learned(k, p, true, true), Learned(k', p, true, true));
        MoreKnown(bad, Learned(k, p, false, true), Learned(k', p, false, true));
      case Choose(left, right) =>
        MoreKnown(left, k, k');
        MoreKnown(right, k, k');
      case _ =>
        MoreKnown(p.next, Learned(k, p, true, true), Learned(k', p, true, true));
    }
  }

  lemma HaltedExtends(k': Know, k: Know)
    requires Extends(k', k)
    ensures k.NowHalted() ==> k'.NowHalted()
  {
  }

  /** What is known after one command. */
  function AfterCommand(k: Know): Know
    requires k.Inside?
  {
    var h := k.halting || k.still;
    k.(halting := h, still := h, swept := k.swept && k.still, resumed := false)
  }

  lemma OneCommand(op: Op, rest: Prog, after: Prog, k: Know)
    requires op.Replies() && k.Inside? && k.depth > 0 && k.phase.Free?
    requires Disciplined(rest, AfterCommand(k)) && Disciplined(after, AfterCommand(k))
    ensures Disciplined(Exchange(op, Choose(rest, after), after), k)
  {
    hide Disciplined;
    ChooseDisciplined(rest, after, AfterCommand(k));
    ExchangeDisciplined(op, Choose(rest, after), after, k);
  }

  /** Commands keep whatever lets the program after them proceed. */
  lemma {:induction false} CommandsDisciplined(ops: seq<Op>, after: Prog, k: Know)
    requires AllReply(ops) && k.Inside? && k.depth > 0 && k.phase.Free? && Disciplined(after, Weak(k))
    ensures Disciplined(Commands(ops, after), k)
    decreases |ops|
  {
    if ops == [] {
      MoreKnown(after, Weak(k), k);
    } else {
      hide Disciplined, Exchange;
      var k' := AfterCommand(k);
      assert Weak(k') == Weak(k);
      CommandsDisciplined(ops[1..], after, k');
      MoreKnown(after, Weak(k), k');
      OneCommand(ops[0], Commands(ops[1..], after), after, k);
    }
  }

  lemma ChooseDisciplined(left: Prog, right: Prog, k: Know)
    requires k.Inside? && k.depth > 0 && Disciplined(left, k) && Disciplined(right, k)
    ensures Disciplined(Choose(left, right), k)
  {
  }

  lemma FailureDisciplined(k: Know)
    requires k.Inside? && k.depth == 1 && k.phase.Free?
    ensures Disciplined(MarkError(Unlock()), k)
  {
  }

  lemma ProbeDisciplined(next: Prog, k: Know)
    requires k.Inside? && k.depth == 1 && k.phase.Free? && Disciplined(next, k) && !k.halting && !k.still && !k.swept
    requires !k.resumed
    ensures Disciplined(Probe(next), k)
  {
    FailureDisciplined(k);
    hide Disciplined, Exchange;
    ChooseDisciplined(next, MarkError(Unlock()), k);
    ExchangeDisciplined(Heartbeat, Choose(next, MarkError(Unlock())), MarkError(Unlock()), k);
  }

  lemma DrainDisciplined(next: Prog, k: Know)
    requires k.Inside? && k.depth > 0 && k.phase.Free?
    requires Disciplined(next, k.(covered := false, accounted := k.NowHalted(), swept := true, holding := false))
    ensures Disciplined(DrainStops(next), k)
  {
  }

  /** A wait that marks the session paused when it takes a stop. */
  lemma WaitDisciplined(quiet: Prog, k: Know)
    requires k.Inside? && k.depth == 1 && k.phase.Free? && Disciplined(quiet, k)
    ensures Disciplined(Wait(MarkPaused(Unlock()), quiet), k)
  {
  }

  lemma ResumedDisciplined(next: Prog, late: Prog, k: Know)
    requires k.Inside? && k.depth > 0 && k.phase.Free?
    requires Disciplined(next,
      k.(halting := false, still := false, swept := false, covered := true, accounted := true, resumed := true))
    ensures Disciplined(Resumed(next, late), k)
  {
  }

  lemma PauseDisciplined()
    ensures Disciplined(Pause(), Outside)
  {
    var took := MarkPaused(Unlock());
    var second := Wait(took, Unlock());
    var first := Wait(took, Interrupt(second));
    var k1 := ENTERED.(covered := true, halting := true, swept := true);
    assert Disciplined(Unlock(), k1);
    WaitDisciplined(Unlock(), k1);
    assert Disciplined(Interrupt(second), k1);
    WaitDisciplined(Interrupt(second), k1);
    assert Disciplined(Interrupt(first), ENTERED.(accounted := false, swept := true));
    DrainDisciplined(Interrupt(first), ENTERED);
    ProbeDisciplined(DrainStops(Interrupt(first)), ENTERED);
  }

  lemma ResumeDisciplined()
    ensures Disciplined(Resume(), Outside)
  {
    var k := ENTERED.(covered := true, resumed := true);
    assert Disciplined(MarkRunning(Unlock()), k);
    ResumedDisciplined(MarkRunning(Unlock()), Unlock(), ENTERED);
    assert Disciplined(Acquire(Resumed(MarkRunning(Unlock()), Unlock())), Outside);
  }

  lemma RegistersDisciplined(ops: seq<Op>)
    requires AllReply(ops)
    ensures Disciplined(Registers(ops), Outside)
  {
    CommandsDisciplined(ops, Unlock(), ENTERED);
  }

  lemma WaitsDisciplined()
    ensures Disciplined(AwaitStop(), Outside) && Disciplined(WaitForHit(), Outside)
  {
    assert Disciplined(Unlock(), ENTERED);
    WaitDisciplined(Unlock(), ENTERED);
    assert Disciplined(AwaitStop(), Outside);
  }

  lemma StepDisciplined()
    ensures Disciplined(StepInstruction(), Outside)
  {
    var k := ENTERED.(covered := true);
    assert Disciplined(Unlock(), k);
    WaitDisciplined(Unlock(), k);
    var wait := Wait(MarkPaused(Unlock()), Unlock());
    assert Disciplined(GetAck(wait, Unlock()), AfterSend(ENTERED, StepOne));
    assert Disciplined(Send(StepOne, GetAck(wait, Unlock())), ENTERED);
  }

  /** What is known on the running branch, and when the protected block starts. */
  const RUNNING := ENTERED.(mode := IsRunning)

  const FENCED := Inside(1, Free, false, true, IsPaused, true, true, true, false, false)

  lemma FenceEstablished(body: Prog)
    requires Disciplined(body, FENCED)
    ensures Disciplined(Enter(body), RUNNING)
  {
    var last := MarkPaused(Claim(Fenced, body));
    assert Disciplined(Claim(Fenced, body), FENCED);
    assert Disciplined(last, FENCED);
    DrainDisciplined(last, FENCED.(swept := false));
    var k := RUNNING.(accounted := false, halting := true, swept := true);
    var paused := MarkPaused(DrainStops(last));
    assert Disciplined(paused, k.(still := true, swept := false));
    ExchangeDisciplined(Heartbeat, paused, paused, k);
    var fence := Exchange(Heartbeat, paused, paused);
    DrainDisciplined(fence, k.(swept := false));
    assert Disciplined(Sweep(DrainStops(fence)), k.(swept := false, covered := true, accounted := true));
    assert Disciplined(Interrupt(Sweep(DrainStops(fence))), RUNNING);
    ProbeDisciplined(Quiesce(DrainStops(last)), RUNNING);
  }

  lemma LeaveDisciplined(k: Know)
    requires k.Inside? && k.depth == 1 && k.phase.Free? && k.mode.IsPaused?
    ensures Disciplined(Leave(), k)
  {
    var k1 := k.(covered := true, accounted := true, halting := false, still := false, swept := false,
      holding := false, resumed := true);
    var done := Claim(Restored, Unlock());
    assert Disciplined(Unlock(), k1.(mode := IsRunning));
    assert Disciplined(done, k1.(mode := IsRunning));
    assert Disciplined(MarkRunning(done), k1);
    var k2 := k.(covered := false, accounted := true, swept := true, holding := false);
    ResumedDisciplined(MarkRunning(done), Unlock(), k2);
    DrainDisciplined(Resumed(MarkRunning(done), Unlock()), k);
  }

  lemma SafeToModifyDisciplined(ops: seq<Op>)
    requires AllReply(ops)
    ensures Disciplined(SafeToModify(ops), Outside)
  {
    LeaveDisciplined(Weak(FENCED));
    CommandsDisciplined(ops, Leave(), FENCED);
    FenceEstablished(Commands(ops, Leave()));
    UnlockAfter(ops);
    hide *;
    Guarded(Enter(Commands(ops, Leave())), Commands(ops, Unlock()));
  }

  lemma UnlockAfter(ops: seq<Op>)
    requires AllReply(ops)
    ensures Disciplined(Commands(ops, Unlock()), ENTERED.(mode := NotRunning))
  {
    var k := ENTERED.(mode := NotRunning);
    assert Disciplined(Unlock(), Weak(k));
    CommandsDisciplined(ops, Unlock(), k);
  }

  /** The state is looked at under the lock, so each branch may rely on what it found. */
  lemma Guarded(yes: Prog, no: Prog)
    requires Disciplined(yes, RUNNING) && Disciplined(no, ENTERED.(mode := NotRunning))
    ensures Disciplined(Acquire(IfRunning(yes, no)), Outside)
  {
  }

  /** Where the session is known not to be RUNNING only the other branch is taken. */
  lemma SkipDisciplined(yes: Prog, no: Prog, k: Know)
    requires k.Inside? && k.depth > 0 && k.mode.IsPaused? && k.accounted && Disciplined(no, k)
    ensures Disciplined(IfRunning(yes, no), k)
  {
    var p := IfRunning(yes, no);
    assert Learned(k, p, true, false) == k;
  }

  lemma NestedDisciplined(yes: Prog, no: Prog, k: Know)
    requires k.Inside? && k.depth > 0 && k.mode.IsPaused? && k.accounted && Disciplined(no, k.(depth := k.depth + 1))
    ensures Disciplined(Acquire(Claim(Nested, IfRunning(yes, no))), k)
  {
    var p, k2 := IfRunning(yes, no), k.(depth := k.depth + 1);
    SkipDisciplined(yes, no, k2);
    ClaimDisciplined(p, k2);
  }

  lemma ClaimDisciplined(p: Prog, k: Know)
    requires k.Inside? && k.depth > 0 && k.mode.IsPaused? && Disciplined(p, k)
    ensures Disciplined(Claim(Nested, p), k)
  {
  }

  lemma AgainDisciplined(inner: seq<Op>, k: Know)
    requires AllReply(inner) && k.Inside? && k.depth == 1 && k.phase.Free? && k.mode.IsPaused? && k.accounted
    ensures Disciplined(Again(inner, Leave()), k)
  {
    hide Leave, Commands, Enter;
    var k2 := k.(depth := 2);
    LeaveDisciplined(Weak(k));
    assert Disciplined(Release(Leave()), Weak(k2));
    CommandsDisciplined(inner, Release(Leave()), k2);
    hide Disciplined;
    var resume := DrainStops(Resumed(MarkRunning(Release(Leave())), Release(Leave())));
    NestedDisciplined(Enter(Commands(inner, resume)), Commands(inner, Release(Leave())), k);
  }

  /** A nested use keeps the discipline because its running branch is never taken: the claim in front of
      it is that the session is not RUNNING inside the outer block. */
  lemma NestedModifyDisciplined(outer: seq<Op>, inner: seq<Op>)
    requires AllReply(outer) && AllReply(inner)
    ensures Disciplined(NestedModify(outer, inner), Outside)
  {
    AgainDisciplined(inner, Weak(FENCED));
    CommandsDisciplined(outer, Again(inner, Leave()), FENCED);
    FenceEstablished(Commands(outer, Again(inner, Leave())));
    UnlockAfter(outer);
    hide *;
    Guarded(Enter(Commands(outer, Again(inner, Leave()))), Commands(outer, Unlock()));
  }

  /** A read on which the watcher dies is excused, because an obliging stub does not reply so. */
  lemma DyingDisciplined(rest: Prog, k: Know)
    requires k.Inside? && k.depth == 1 && k.phase.Free? && Disciplined(rest, k)
    ensures Disciplined(OnReply(rest, Unlock()), k)
  {
  }

  lemma {:induction false} ReadsDisciplined(queries: seq<Op>, after: Prog, k: Know)
    requires AllReply(queries) && k.Inside? && k.depth == 1 && k.phase.Free? && Disciplined(after, Weak(k))
    ensures Disciplined(Reads(queries, after), k)
    decreases |queries|
  {
    if queries == [] {
      MoreKnown(after, Weak(k), k);
    } else {
      hide Disciplined, Exchange;
      var k', rest := AfterCommand(k), Reads(queries[1..], after);
      assert Weak(k') == Weak(k);
      ReadsDisciplined(queries[1..], after, k');
      DyingDisciplined(rest, k');
      ExchangeDisciplined(queries[0], if queries[0] == Query("g") then OnReply(rest, Unlock()) else rest, after, k);
    }
  }

  lemma SurfacingDisciplined(k: Know)
    requires k.Inside? && k.depth == 1 && k.phase.Free? && k.holding
    ensures Disciplined(Requeue(MarkPaused(Unlock())), k)
  {
    assert Disciplined(Unlock(), k.(mode := AfterPause(k.mode), covered := true, accounted := true, swept := false,
      holding := false));
  }

  lemma WatcherDisciplined(queries: seq<Op>)
    requires AllReply(queries)
    ensures Disciplined(WatcherIteration(queries), Outside)
  {
    var k := ENTERED.(accounted := false, holding := true);
    var w, surface, capture := Weak(k), Requeue(MarkPaused(Unlock())), Reads(queries, WentOnBehind());
    assert Disciplined(Unlock(), w.(covered := true, accounted := true, resumed := true));
    assert Disciplined(Claim(WentOn, Unlock()), w.(covered := true, accounted := true, resumed := true));
    ResumedDisciplined(Claim(WentOn, Unlock()), Unlock(), w);
    ReadsDisciplined(queries, WentOnBehind(), k);
    SurfacingDisciplined(k);
    hide Disciplined, Reads;
    ChooseDisciplined(surface, capture, k);
    IterationDisciplined(Choose(surface, capture), k);
  }

  lemma IterationDisciplined(got: Prog, k: Know)
    requires k == ENTERED.(accounted := false, holding := true) && Disciplined(got, k)
    ensures Disciplined(Acquire(Wait(got, Unlock())), Outside)
  {
    assert Disciplined(Unlock(), ENTERED);
  }

  // ---- what they write ----

  /** What goes out on the line: a command or an interrupt. */
  datatype Mark = Cmd(op: Op) | Intr

  /** On some path, timeouts included, the program writes exactly `w`. */
  predicate Writes(p: Prog, w: seq<Mark>)
    decreases p
  {
    match p
    case Done => w == []
    case Send(op, next) => w != [] && w[0] == Cmd(op) && Writes(next, w[1..])
    case Interrupt(next) => w != [] && w[0] == Intr && Writes(next, w[1..])
    case GetAck(next, late) => Writes(next, w) || Writes(late, w)
    case GetReply(next, late) => Writes(next, w) || Writes(late, w)
    case OnReply(good, bad) => Writes(good, w) || Writes(bad, w)
    case Wait(got, quiet) => Writes(got, w) || Writes(quiet, w)
    case IfRunning(yes, no) => Writes(yes, w) || Writes(no, w)
    case Choose(left, right) => Writes(left, w) || Writes(right, w)
    case _ => Writes(p.next, w)
  }

  function Cmds(ops: seq<Op>): seq<Mark> { seq(|ops|, i requires 0 <= i < |ops| => Cmd(ops[i])) }

  /** `k` of the commands are written, at least one if there is one. */
  predicate Begun(ops: seq<Op>, k: nat) { k <= |ops| && (ops != [] ==> k > 0) }

  /** `w` begins with the first `k` commands. */
  predicate Begins(ops: seq<Op>, k: nat, w: seq<Mark>) { k <= |ops| && k <= |w| && w[..k] == Cmds(ops[..k]) }

  lemma UnlockWrites(w: seq<Mark>)
    ensures Writes(Unlock(), w) <==> w == []
    ensures Writes(MarkPaused(Unlock()), w) <==> w == []
    ensures Writes(MarkError(Unlock()), w) <==> w == []
  {
  }

  lemma ExchangeWrites(op: Op, next: Prog, late: Prog, w: seq<Mark>)
    ensures Writes(Exchange(op, next, late), w) <==>
      w != [] && w[0] == Cmd(op) && (Writes(next, w[1..]) || Writes(late, w[1..]))
  {
    if w != [] {
      var reply := GetReply(next, late);
      assert Writes(reply, w[1..]) <==> Writes(next, w[1..]) || Writes(late, w[1..]);
      assert Writes(GetAck(reply, late), w[1..]) <==> Writes(reply, w[1..]) || Writes(late, w[1..]);
    }
  }

  lemma ResumedWrites(next: Prog, late: Prog, w: seq<Mark>)
    ensures Writes(Resumed(next, late), w) <==>
      w != [] && w[0] == Cmd(Continue) && (Writes(next, w[1..]) || Writes(late, w[1..]))
  {
  }

  lemma BeginsMore(ops: seq<Op>, k: nat, w: seq<Mark>)
    requires ops != [] && w != []
    ensures k > 0 ==> (Begins(ops, k, w) <==> w[0] == Cmd(ops[0]) && Begins(ops[1..], k - 1, w[1..]))
    ensures 0 < k <= |w| ==> w[1..][k - 1..] == w[k..]
  {
    if 0 < k <= |ops| && k <= |w| {
      assert w[..k] == [w[0]] + w[1..][..k - 1];
      assert Cmds(ops[..k]) == [Cmd(ops[0])] + Cmds(ops[1..][..k - 1]);
      FirstAndRest(w[0], w[1..][..k - 1], Cmd(ops[0]), Cmds(ops[1..][..k - 1]));
    }
  }

  lemma FirstAndRest<T>(a: T, s: seq<T>, b: T, t: seq<T>)
    ensures [a] + s == [b] + t <==> a == b && s == t
  {
    assert ([a] + s)[0] == a && ([a] + s)[1..] == s && ([b] + t)[0] == b && ([b] + t)[1..] == t;
  }

  /** `w` is a first part of the commands, and then what `after` writes. */
  predicate PartThen(ops: seq<Op>, after: Prog, w: seq<Mark>) {
    exists k :: 0 <= k <= |w| && Begun(ops, k) && Begins(ops, k, w) && Writes(after, w[k..])
  }

  lemma PartOfNone(after: Prog, w: seq<Mark>)
    ensures PartThen([], after, w) <==> Writes(after, w)
  {
    assert w[0..] == w;
    assert Begun([], 0) && Begins([], 0, w);
  }

  lemma PartOfMore(ops: seq<Op>, after: Prog, w: seq<Mark>)
    requires ops != []
    ensures PartThen(ops, after, w) <==>
      w != [] && w[0] == Cmd(ops[0]) && (Writes(after, w[1..]) || PartThen(ops[1..], after, w[1..]))
  {
    hide Writes, Begins;
    if w != [] {
      BeginsFirst(ops, w);
      if k :| 0 <= k <= |w| && Begun(ops, k) && Begins(ops, k, w) && Writes(after, w[k..]) {
        BeginsMore(ops, k, w);
        assert k > 1 ==> Begun(ops[1..], k - 1) && Writes(after, w[1..][k - 1..]);
        BeginsTwo(ops, k, w);
      }
      if w[0] == Cmd(ops[0]) {
        if Writes(after, w[1..]) {
          assert Begun(ops, 1) && Begins(ops, 1, w);
        } else if PartThen(ops[1..], after, w[1..]) {
          var k :| 0 <= k < |w| && Begun(ops[1..], k) && Begins(ops[1..], k, w[1..]) && Writes(after, w[1..][k..]);
          BeginsMore(ops, k + 1, w);
          assert Begun(ops, k + 1) && Begins(ops, k + 1, w) && Writes(after, w[k + 1..]);
        }
      }
    }
  }

  lemma BeginsTwo(ops: seq<Op>, k: nat, w: seq<Mark>)
    requires ops != [] && 0 < k && Begins(ops, k, w)
    ensures w[0] == Cmd(ops[0])
  {
    assert w[..k][0] == Cmds(ops[..k])[0];
  }

  /** Commands one after the other write a first part of them, and then what follows. */
  lemma {:induction false} CommandsWrite(ops: seq<Op>, after: Prog, w: seq<Mark>)
    ensures Writes(Commands(ops, after), w) <==> PartThen(ops, after, w)
    decreases |ops|
  {
    if ops == [] {
      PartOfNone(after, w);
    } else {
      var rest := Commands(ops[1..], after);
      hide Writes, PartThen;
      ExchangeWrites(ops[0], Choose(rest, after), after, w);
      PartOfMore(ops, after, w);
      if w != [] {
        ChooseWrites(rest, after, w[1..]);
        CommandsWrite(ops[1..], after, w[1..]);
      }
    }
  }

  lemma BeginsFirst(ops: seq<Op>, w: seq<Mark>)
    requires ops != [] && w != []
    ensures Begins(ops, 1, w) <==> w[0] == Cmd(ops[0])
  {
    BeginsMore(ops, 1, w);
    assert Begins(ops[1..], 0, w[1..]);
  }

  lemma ChooseWrites(left: Prog, right: Prog, w: seq<Mark>)
    ensures Writes(Choose(left, right), w) <==> Writes(left, w) || Writes(right, w)
  {
  }

  /** The register tools write a first part of their queries, at least one, and nothing else. */
  lemma RegistersWrite(ops: seq<Op>, w: seq<Mark>)
    ensures Writes(Registers(ops), w) <==> Begun(ops, |w|) && w == Cmds(ops[..|w|])
  {
    CommandsWrite(ops, Unlock(), w);
    assert Writes(Registers(ops), w) <==> Writes(Commands(ops, Unlock()), w);
    EndsAt(ops, w);
  }

  lemma EndsAt(ops: seq<Op>, w: seq<Mark>)
    ensures PartThen(ops, Unlock(), w) <==>
      Begun(ops, |w|) && w == Cmds(ops[..|w|])
  {
    hide Writes;
    forall k | 0 <= k <= |w| ensures Writes(Unlock(), w[k..]) <==> k == |w| {
      UnlockWrites(w[k..]);
    }
    assert w[..|w|] == w;
    if Begun(ops, |w|) && w == Cmds(ops[..|w|]) {
      assert Begins(ops, |w|, w) && Writes(Unlock(), w[|w|..]);
    }
  }

  /** `pause` writes the probe, and behind a good answer one interrupt, or two. */
  lemma PauseWrites(w: seq<Mark>)
    ensures Writes(Pause(), w) <==>
      w == [Cmd(Heartbeat)] || w == [Cmd(Heartbeat), Intr] || w == [Cmd(Heartbeat), Intr, Intr]
  {
    var took, failed := MarkPaused(Unlock()), MarkError(Unlock());
    var second := Wait(took, Unlock());
    var first := Wait(took, Interrupt(second));
    var all := DrainStops(Interrupt(first));
    hide Unlock;
    assert Pause() == Acquire(Exchange(Heartbeat, Choose(all, failed), failed));
    ExchangeWrites(Heartbeat, Choose(all, failed), failed, w);
    if w != [] {
      ChooseWrites(all, failed, w[1..]);
      UnlockWrites(w[1..]);
      DrainWrites(Interrupt(first), w[1..]);
      if |w| > 1 {
        WaitWrites(took, Interrupt(second), w[2..]);
        UnlockWrites(w[2..]);
        if |w| > 2 {
          WaitWrites(took, Unlock(), w[3..]);
          UnlockWrites(w[3..]);
        }
      }
    }
    assert w != [] ==> w == [w[0]] + w[1..];
  }

  lemma DrainWrites(next: Prog, w: seq<Mark>)
    ensures Writes(DrainStops(next), w) <==> Writes(next, w)
  {
    assert Writes(Sweep(next), w) <==> Writes(next, w);
  }

  lemma WaitWrites(got: Prog, quiet: Prog, w: seq<Mark>)
    ensures Writes(Wait(got, quiet), w) <==> Writes(got, w) || Writes(quiet, w)
  {
  }

  /** `resume` writes `c`, or nothing; `step` writes `s`; the waits write nothing. */
  lemma ResumeWrites(w: seq<Mark>)
    ensures Writes(Resume(), w) <==> w == [] || w == [Cmd(Continue)]
    ensures Writes(StepInstruction(), w) <==> w == [Cmd(StepOne)]
    ensures Writes(AwaitStop(), w) <==> w == []
    ensures Writes(WaitForHit(), w) <==> w == []
  {
    var marked := MarkRunning(Unlock());
    assert Writes(Resume(), w) <==> w == [] || Writes(Resumed(marked, Unlock()), w);
    ResumedWrites(marked, Unlock(), w);
    var wait := Wait(MarkPaused(Unlock()), Unlock());
    UnlockWrites(w);
    if w != [] {
      UnlockWrites(w[1..]);
      assert Writes(marked, w[1..]) <==> w[1..] == [];
      WaitWrites(MarkPaused(Unlock()), Unlock(), w[1..]);
      assert Writes(GetAck(wait, Unlock()), w[1..]) <==> w[1..] == [];
      assert w == [w[0]] + w[1..];
    }
    WaitWrites(MarkPaused(Unlock()), Unlock(), w);
    assert Writes(AwaitStop(), w) <==> w == [];
  }

  /** From the protected block back: `c`. */
  lemma LeaveWrites(w: seq<Mark>)
    ensures Writes(Leave(), w) <==> w == [Cmd(Continue)]
  {
    var done := MarkRunning(Claim(Restored, Unlock()));
    DrainWrites(Resumed(done, Unlock()), w);
    ResumedWrites(done, Unlock(), w);
    if w != [] {
      UnlockWrites(w[1..]);
      assert Writes(Claim(Restored, Unlock()), w[1..]) <==> w[1..] == [];
      assert Writes(done, w[1..]) <==> w[1..] == [];
      assert w == [w[0]] + w[1..];
    }
  }

  /** To the protected block: the probe, then an interrupt and the fence, then what the block writes. */
  lemma EnterWrites(body: Prog, w: seq<Mark>)
    ensures Writes(Enter(body), w) <==>
      w == [Cmd(Heartbeat)]
      || (|w| >= 3 && w[..3] == [Cmd(Heartbeat), Intr, Cmd(Heartbeat)] && Writes(body, w[3..]))
  {
    var inner := DrainStops(MarkPaused(Claim(Fenced, body)));
    var marked, failed := MarkPaused(inner), MarkError(Unlock());
    var fence := Exchange(Heartbeat, marked, marked);
    var all := Interrupt(Sweep(DrainStops(fence)));
    ExchangeWrites(Heartbeat, Choose(all, failed), failed, w);
    if w != [] {
      ChooseWrites(all, failed, w[1..]);
      UnlockWrites(w[1..]);
      if |w| > 1 {
        assert Writes(Sweep(DrainStops(fence)), w[2..]) <==> Writes(DrainStops(fence), w[2..]);
        DrainWrites(fence, w[2..]);
        ExchangeWrites(Heartbeat, marked, marked, w[2..]);
        assert Writes(all, w[1..]) <==> w[1] == Intr && Writes(fence, w[2..]);
        if |w| > 2 {
          assert w[2..][1..] == w[3..];
          DrainWrites(MarkPaused(Claim(Fenced, body)), w[3..]);
          assert Writes(Claim(Fenced, body), w[3..]) <==> Writes(body, w[3..]);
          assert Writes(marked, w[3..]) <==> Writes(body, w[3..]);
        }
      }
    }
    assert |w| >= 3 ==> w[..3] == [w[0], w[1], w[2]];
  }

  /** `_safe_to_modify` writes the commands of its block, all or up to the one that raises, alone, or behind probe,
      interrupt and fence and in front of `c`; or the probe alone, when that fails. */
  lemma SafeToModifyWrites(ops: seq<Op>, w: seq<Mark>)
    ensures Writes(SafeToModify(ops), w) <==>
      (Begun(ops, |w|) && w == Cmds(ops[..|w|])) || w == [Cmd(Heartbeat)]
      || (|w| >= 4 && w[..3] == [Cmd(Heartbeat), Intr, Cmd(Heartbeat)] && w[|w| - 1] == Cmd(Continue)
          && Begun(ops, |w| - 4) && w[3..|w| - 1] == Cmds(ops[..|w| - 4]))
  {
    hide Writes, Enter, Leave, Commands, Begun, PartThen;
    var inside, plain := Commands(ops, Leave()), Commands(ops, Unlock());
    LookWrites(Enter(inside), plain, w);
    EnterWrites(inside, w);
    CommandsWrite(ops, Unlock(), w);
    EndsAt(ops, w);
    if |w| >= 3 {
      CommandsWrite(ops, Leave(), w[3..]);
      forall v ensures Writes(Leave(), v) <==> v == [Cmd(Continue)] {
        LeaveWrites(v);
      }
      EndsWith(ops, Leave(), w[3..]);
      if |w| >= 4 {
        assert w[3..][..|w[3..]| - 1] == w[3..|w| - 1];
      }
    }
  }

  lemma LookWrites(yes: Prog, no: Prog, w: seq<Mark>)
    ensures Writes(Acquire(IfRunning(yes, no)), w) <==> Writes(yes, w) || Writes(no, w)
  {
  }

  /** Commands followed by a program that writes `c`. */
  lemma EndsWith(ops: seq<Op>, after: Prog, w: seq<Mark>)
    requires forall v :: Writes(after, v) <==> v == [Cmd(Continue)]
    ensures PartThen(ops, after, w) <==>
      w != [] && w[|w| - 1] == Cmd(Continue) && Begun(ops, |w| - 1) && w[..|w| - 1] == Cmds(ops[..|w| - 1])
  {
    hide Writes, Begins;
    if PartThen(ops, after, w) {
      var k :| 0 <= k <= |w| && Begun(ops, k) && Begins(ops, k, w) && Writes(after, w[k..]);
      assert |w[k..]| == |w| - k && w[k..][0] == w[k];
      BeginsIs(ops, k, w);
    }
    if w != [] && w[|w| - 1] == Cmd(Continue) && Begun(ops, |w| - 1) && w[..|w| - 1] == Cmds(ops[..|w| - 1]) {
      assert w[|w| - 1..] == [Cmd(Continue)];
      BeginsIs(ops, |w| - 1, w);
    }
  }

  lemma BeginsIs(ops: seq<Op>, k: nat, w: seq<Mark>)
    requires k <= |ops| && k <= |w|
    ensures Begins(ops, k, w) <==> w[..k] == Cmds(ops[..k])
  {
  }

  /** The watcher dies behind the register dump it has just asked for. */
  predicate Dies(queries: seq<Op>, w: seq<Mark>) {
    0 < |w| <= |queries| && queries[|w| - 1] == Query("g") && w == Cmds(queries[..|w|])
  }

  lemma DiesLater(queries: seq<Op>, w: seq<Mark>)
    requires queries != [] && w != []
    ensures Dies(queries, w) <==>
      w[0] == Cmd(queries[0]) && (if w[1..] == [] then queries[0] == Query("g") else Dies(queries[1..], w[1..]))
  {
    assert w == [w[0]] + w[1..];
    if |w| <= |queries| {
      assert Cmds(queries[..|w|]) == [Cmd(queries[0])] + Cmds(queries[1..][..|w| - 1]);
    }
  }

  /** The reads of a capture write a first part of the queries and then what follows, or the thread dies. */
  lemma {:induction false} ReadsWrite(queries: seq<Op>, after: Prog, w: seq<Mark>)
    ensures Writes(Reads(queries, after), w) <==> Dies(queries, w) || PartThen(queries, after, w)
    decreases |queries|
  {
    if queries == [] {
      PartOfNone(after, w);
    } else {
      var rest, q := Reads(queries[1..], after), queries[0];
      var next := if q == Query("g") then OnReply(rest, Unlock()) else rest;
      DyingWrites(rest, if w == [] then [] else w[1..]);
      hide Writes, PartThen, Dies;
      ExchangeWrites(q, next, after, w);
      PartOfMore(queries, after, w);
      NotDead(queries, w);
      if w != [] {
        ReadsWrite(queries[1..], after, w[1..]);
        DiesLater(queries, w);
        NotDead(queries[1..], w[1..]);
      }
    }
  }

  lemma DyingWrites(rest: Prog, w: seq<Mark>)
    ensures Writes(OnReply(rest, Unlock()), w) <==> Writes(rest, w) || w == []
  {
    UnlockWrites(w);
  }

  lemma NotDead(queries: seq<Op>, w: seq<Mark>)
    ensures w == [] ==> !Dies(queries, w)
  {
  }

  lemma WentOnWrites(w: seq<Mark>)
    ensures Writes(WentOnBehind(), w) <==> w == [Cmd(Continue)]
  {
    ResumedWrites(Claim(WentOn, Unlock()), Unlock(), w);
    if w != [] {
      UnlockWrites(w[1..]);
      assert Writes(Claim(WentOn, Unlock()), w[1..]) <==> w[1..] == [];
      assert w == [w[0]] + w[1..];
    }
  }

  /** One pass of the watcher writes nothing; or its reads, all or up to one that times out, and `c`; or the reads
      up to the register dump that it dies of. */
  lemma WatcherWrites(queries: seq<Op>, w: seq<Mark>)
    ensures Writes(WatcherIteration(queries), w) <==>
      w == [] || Dies(queries, w)
      || (w[|w| - 1] == Cmd(Continue) && Begun(queries, |w| - 1) && w[..|w| - 1] == Cmds(queries[..|w| - 1]))
  {
    var surface, capture := Requeue(MarkPaused(Unlock())), Reads(queries, WentOnBehind());
    assert Writes(WatcherIteration(queries), w) <==> Writes(Wait(Choose(surface, capture), Unlock()), w);
    WaitWrites(Choose(surface, capture), Unlock(), w);
    ChooseWrites(surface, capture, w);
    UnlockWrites(w);
    assert Writes(surface, w) <==> w == [];
    hide Writes, Dies;
    ReadsWrite(queries, WentOnBehind(), w);
    forall v ensures Writes(WentOnBehind(), v) <==> v == [Cmd(Continue)] {
      WentOnWrites(v);
    }
    EndsWith(queries, WentOnBehind(), w);
  }
}
