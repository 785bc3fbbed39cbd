/** Capture configuration and the tracing tools that arm, capture and disarm. */
module Tracing {
  import opened Text
  import opened Wire
  import opened Connection
  import opened Registry
  import opened Session
  import opened Watcher

  const CAPTURE_CHOICES: set<string> := {"gprs", "fprs", "lr", "stack"}

  /** A spec with its capture configured. */
  function Configured(s: Spec, captures: seq<string>): Spec {
    s.(captures := if captures == [] then ["gprs"] else captures, autoContinue := true)
  }

  /** `capture_on_hit`. */
  method CaptureOnHit(session: Session, id: nat, captures: seq<string>, autoResume: bool) returns (r: Outcome<()>)
    modifies session, session.stub
    ensures session.nextId == old(session.nextId)
    ensures var i := Find(old(session.breakpoints), id);
      if i == |old(session.breakpoints)| then r == Err(NotFound) && session.breakpoints == old(session.breakpoints)
      else if exists c <- captures :: c != "gprs" && c != "fprs" && c != "lr" && c != "stack" then
        r == Err(BadArgument) && session.breakpoints == old(session.breakpoints)
      else
        var spec, keys := old(session.breakpoints)[i], if captures == [] then ["gprs"] else captures;
        && session.breakpoints == old(session.breakpoints)[i := spec.(captures := keys, autoContinue := true)]
        && Configured(spec, captures) == spec.(captures := keys, autoContinue := true)
        && (r.Err? ==> r.error == TimedOut)
        && session.stub.commands
          == old(session.stub.commands) + if autoResume && old(session.state) == ConnectedPaused then [Continue] else []
    ensures r == Err(NotFound) || r == Err(BadArgument) ==> unchanged(session) && unchanged(session.stub)
    ensures if r.Ok? then session.watcherAlive else session.watcherAlive == old(session.watcherAlive)
    ensures session.state == if r.Ok? && autoResume && old(session.state) == ConnectedPaused then ConnectedRunning
                             else old(session.state)
    ensures session.stub.taken == old(session.stub.taken)
    ensures AsksNothing(old(session.stub.commands), session.stub.commands)
  {
    AsksNothingYet(session.stub.commands);
    ContinueAsksNothing(session.stub.commands);
    hide AsksNothing;
    var i := Find(session.breakpoints, id);
    if i == |session.breakpoints| {
      return Err(NotFound);
    }
    if exists c <- captures :: c !in CAPTURE_CHOICES {
      return Err(BadArgument);
    }
    session.breakpoints := session.breakpoints[i := Configured(session.breakpoints[i], captures)];
    if autoResume && session.state == ConnectedPaused {
      var resumed := session.stub.ContinueAsync();
      if resumed.Err? {
        return Err(resumed.error);
      }
      session.MarkRunning();
    }
    session.watcherAlive := true;
    r := Ok(());
  }

  predicate NoneCapturing(specs: seq<Spec>) { forall i :: 0 <= i < |specs| ==> !specs[i].autoContinue }

  function Uncaptured(specs: seq<Spec>): (r: seq<Spec>)
    ensures |r| == |specs|
    ensures forall i :: 0 <= i < |specs| ==> r[i] == specs[i].(autoContinue := false)
  {
    if specs == [] then [] else [specs[0].(autoContinue := false)] + Uncaptured(specs[1..])
  }

  /** `stop_capturing`, for one spec or for all; the watcher goes with the last auto-continuing spec. */
  method StopCapturing(session: Session, id: Option<nat>) returns (r: Outcome<()>)
    modifies session`breakpoints, session`watcherAlive
    ensures id.None? ==> r.Ok? && session.breakpoints == Uncaptured(old(session.breakpoints))
    ensures id.Some? ==>
      var i := Find(old(session.breakpoints), id.value);
      if i == |old(session.breakpoints)| then r == Err(NotFound) && unchanged(session)
      else
        var was := old(session.breakpoints);
        r.Ok? && session.breakpoints == was[i := was[i].(autoContinue := false)]
    ensures r.Ok? && NoneCapturing(session.breakpoints) ==> !session.watcherAlive
    ensures AnyAutoContinue(session.breakpoints) ==> session.watcherAlive == old(session.watcherAlive)
  {
    if id.None? {
      session.breakpoints := Uncaptured(session.breakpoints);
    } else {
      var i := Find(session.breakpoints, id.value);
      if i == |session.breakpoints| {
        return Err(NotFound);
      }
      session.breakpoints := session.breakpoints[i := session.breakpoints[i].(autoContinue := false)];
    }
    if !AnyAutoContinue(session.breakpoints) {
      session.watcherAlive := false;
    }
    r := Ok(());
  }

  /** What the watcher does while a tracing tool sleeps: it takes `stops` off the connection, and the
      registry becomes what the captures of them make of it. */
  method Sleep(session: Session, passes: nat, condition: Condition)
    returns (ghost seen: seq<Capture>, ghost stops: seq<Item>)
    modifies session, session.stub
    ensures session.breakpoints == RecordedAll(old(session.breakpoints), seen, condition)
    ensures session.stub.taken == old(session.stub.taken) + stops && Captured(seen, stops)
    ensures AsksNothing(old(session.stub.commands), session.stub.commands)
    ensures session.nextId == old(session.nextId)
  {
    var watcher := new StopWatcher(session);
    ghost var spans: seq<Span>;
    var history, captures, exited;
    ghost var registries: seq<seq<Spec>>;
    history, captures, exited, spans, registries := watcher.Run(passes, condition, true);
    seen, stops := captures, Took(spans, session.stub.taken);
  }

  /** `specs` is the registry `base` with one more spec, `id`, at the end; logs aside. */
  predicate OneMore(specs: seq<Spec>, base: seq<Spec>, id: nat) {
    && |specs| == |base| + 1 && specs[|base|].id == id
    && forall i :: 0 <= i < |base| ==> specs[i].(log := []) == base[i].(log := [])
  }

  lemma OneMoreBare(specs: seq<Spec>, specs': seq<Spec>, base: seq<Spec>, id: nat)
    requires OneMore(specs, base, id) && Bare(specs') == Bare(specs)
    ensures OneMore(specs', base, id)
  {
  }

  lemma OneMoreConfigured(specs: seq<Spec>, base: seq<Spec>, id: nat, captures: seq<string>)
    requires OneMore(specs, base, id)
    ensures OneMore(specs[|base| := Configured(specs[|base|], captures)], base, id)
  {
  }

  lemma OneMoreFound(specs: seq<Spec>, base: seq<Spec>, id: nat)
    requires OneMore(specs, base, id) && WellNumbered(base, id)
    ensures Find(specs, id) == |base| == |specs| - 1 && WellNumbered(specs, id + 1)
    ensures Bare(Without(specs, |base|)) == Bare(base)
  {
  }

  lemma OneMoreStopped(specs: seq<Spec>, base: seq<Spec>, id: nat)
    requires OneMore(specs, base, id)
    ensures var now := specs[|base| := specs[|base|].(autoContinue := false)];
      OneMore(now, base, id) && (NoneCapturing(base) ==> NoneCapturing(now)) && now[|base|].place == specs[|base|].place
  {
    var now := specs[|base| := specs[|base|].(autoContinue := false)];
    forall i | 0 <= i < |base| ensures now[i].autoContinue == base[i].autoContinue {
      assert specs[i].(log := []) == base[i].(log := []);
    }
  }

  lemma LogOfOwn(specs: seq<Spec>, base: seq<Spec>, id: nat, seen: seq<Capture>, condition: Condition)
    requires OneMore(specs, base, id) && WellNumbered(base, id)
    ensures var after := RecordedAll(specs, seen, condition);
      && OneMore(after, base, id) && Find(after, id) == |base|
      && after[|base|].log == specs[|base|].log + MeantFor(specs, seen, condition, id)
      && after[|base|].place == specs[|base|].place
  {
    OneMoreFound(specs, base, id);
    LogsInOrder(specs, seen, condition, |base|, id + 1);
    OneMoreBare(specs, RecordedAll(specs, seen, condition), base, id);
    assert Bare(RecordedAll(specs, seen, condition))[|base|] == Bare(specs)[|base|];
    OneMoreFound(RecordedAll(specs, seen, condition), base, id);
  }

  /** The protected part of a tracing tool: capture, sleep, fetch the log; its own spec stays last.  The log
      fetched is the old one and exactly the captures meant for that spec, in arrival order. */
  method CaptureFor(session: Session, ghost base: seq<Spec>, id: nat, captures: seq<string>, passes: nat,
                    condition: Condition)
    returns (r: Outcome<seq<Capture>>, ghost seen: seq<Capture>, ghost stops: seq<Item>)
    requires OneMore(session.breakpoints, base, id) && WellNumbered(base, id)
    modifies session, session.stub
    ensures session.nextId == old(session.nextId) && OneMore(session.breakpoints, base, id)
    ensures session.breakpoints[|base|].place == old(session.breakpoints)[|base|].place
    ensures r.Ok? ==>
      var specs := old(session.breakpoints)[|base| := Configured(old(session.breakpoints)[|base|], captures)];
      && r.value == specs[|base|].log + MeantFor(specs, seen, condition, id)
      && Captured(seen, stops) && session.stub.taken == old(session.stub.taken) + stops
    ensures AsksNothing(old(session.stub.commands), session.stub.commands)
  {
    hide OneMore, RecordedAll, MeantFor, AsksNothing;
    seen, stops := [], [];
    OneMoreFound(session.breakpoints, base, id);
    OneMoreConfigured(session.breakpoints, base, id, captures);
    var started := CaptureOnHit(session, id, captures, true);
    if started.Err? {
      return Err(started.error), seen, stops;
    }
    ghost var specs := session.breakpoints;
    ghost var before := session.stub.commands;
    seen, stops := Sleep(session, passes, condition);
    AsksNothingMore(old(session.stub.commands), before, session.stub.commands);
    LogOfOwn(specs, base, id, seen, condition);
    OneMoreFound(session.breakpoints, base, id);
    r := Ok(session.breakpoints[Find(session.breakpoints, id)].log);
  }

  /** The cleanup of a tracing tool, with whatever fails in it ignored. */
  method CleanUp(session: Session, ghost base: seq<Spec>, id: nat, waits: nat, polls: nat, replies: nat)
    returns (ghost running: bool, ghost entered: bool)
    requires OneMore(session.breakpoints, base, id) && WellNumbered(base, id) && session.nextId == id + 1
    modifies session, session.stub
    ensures session.Valid() && Bare(session.breakpoints) == Bare(base)
    ensures NoneCapturing(base) ==> !session.watcherAlive
    ensures var op := Disarm(old(session.breakpoints)[|base|].place);
      session.stub.commands == old(session.stub.commands) + Written(Some(op), running, entered)
  {
    hide OneMore, Bare, Written, WellNumbered, Without;
    OneMoreFound(session.breakpoints, base, id);
    OneMoreStopped(session.breakpoints, base, id);
    var stopped := StopCapturing(session, Some(id));
    OneMoreFound(session.breakpoints, base, id);
    running := session.state == ConnectedRunning;
    var removed, answer, settled := session.Remove(id, waits, polls, replies);
    entered := removed != Err(Wedged);
  }

  /** `trace_writes_to` and `trace_calls_to`: arm, capture for a while, stop capturing, disarm.
      However it ends, the registry is what it was, up to what the watcher logged for other specs, and the stub
      has been asked to arm the place and then to disarm it, if it still answered the probe then, and for nothing
      else.  What it returns are exactly the captures meant for its own spec, in arrival order, of all `seen`. */
  method Trace(session: Session, place: Place, duration: real, captures: seq<string>, passes: nat,
               condition: Condition, waits: nat, polls: nat, replies: nat)
    returns (r: Outcome<seq<Capture>>, ghost seen: seq<Capture>)
    requires session.Valid()
    modifies session, session.stub
    ensures session.Valid() && Bare(session.breakpoints) == Bare(old(session.breakpoints))
    ensures !(0.0 < duration <= 600.0) ==> r == Err(BadArgument) && unchanged(session) && unchanged(session.stub)
    ensures r.Ok? ==>
      var keys := if captures == [] then ["gprs", "lr"] else captures;
      var own := NewSpec(old(session.nextId), place).(captures := keys, autoContinue := true);
      r.value == MeantFor(old(session.breakpoints) + [own], seen, condition, own.id)
    ensures session.nextId != old(session.nextId) && NoneCapturing(old(session.breakpoints)) ==> !session.watcherAlive
    ensures session.nextId != old(session.nextId) ==>
      BracketedBy(old(session.stub.commands), session.stub.commands, place)
  {
    hide Asked, Written, MeantFor, AsksNothing, BracketedBy;
    seen := [];
    if duration <= 0.0 || duration > 600.0 {
      return Err(BadArgument), seen;
    }
    ghost var running := session.state == ConnectedRunning;
    var added, armed := session.Add(Some(place), waits, polls, replies);
    if added.Err? {
      return Err(added.error), seen;
    }
    ghost var before := session.stub.commands;
    ghost var base, spec := old(session.breakpoints), NewSpec(added.value, place);
    assert (base + [spec])[|base| := Configured(spec, Wanted(captures))] == base + [Configured(spec, Wanted(captures))];
    ghost var stops: seq<Item>;
    r, seen, stops := CaptureFor(session, base, added.value, Wanted(captures), passes, condition);
    ghost var traced := session.stub.commands;
    ghost var still, entered := CleanUp(session, base, added.value, waits, polls, replies);
    Brackets(old(session.stub.commands), before, traced, session.stub.commands, place, running, still, entered);
  }

  /** The changes asked for are the arming of the place and its disarming; the second may be missing when the
      stub does not answer the probe in front of it any more. */
  predicate BracketedBy(before: seq<Op>, now: seq<Op>, place: Place) {
    before <= now &&
    var asked := Asked(now[|before|..]);
    asked == [Arm(place), Disarm(place)] || (asked == [Arm(place)] && EndsIn(now, [Heartbeat]))
  }

  lemma Brackets(start: seq<Op>, armed: seq<Op>, traced: seq<Op>, now: seq<Op>, place: Place, running: bool,
                 still: bool, entered: bool)
    requires armed == start + Written(Some(Arm(place)), running, true) && AsksNothing(armed, traced)
    requires now == traced + Written(Some(Disarm(place)), still, entered)
    ensures BracketedBy(start, now, place)
  {
    hide Written, Asked;
    var first, last := Written(Some(Arm(place)), running, true), Written(Some(Disarm(place)), still, entered);
    AskedIs(Arm(place), running);
    LastAsked(place, still, entered);
    AskedMore(first, traced[|armed|..]);
    AskedMore(first + traced[|armed|..], last);
    assert now[|start|..] == first + traced[|armed|..] + last;
  }

  lemma LastAsked(place: Place, still: bool, entered: bool)
    ensures var last := Written(Some(Disarm(place)), still, entered);
      Asked(last) == [Disarm(place)] || (Asked(last) == [] && last == [Heartbeat])
  {
    AskedIs(Disarm(place), still);
    if !entered && still {
      assert [Heartbeat][..0] == [];
    }
  }

  function Wanted(captures: seq<string>): seq<string> { if captures == [] then ["gprs", "lr"] else captures }
}
