/** Adding and removing breakpoints from a session that is not RUNNING, where nothing is fenced, when some of
    the commands are not answered in time: exactly when the registry still agrees with the stub. */
module Arrears {
  import opened Rsp
  import opened Wire
  import opened Registry

  /** An addition, or the removal of the spec registered at a place. */
  datatype Change = Adding(place: Place) | Removing(place: Place)

  /** One call: what it asks for, and how its command ended for the client. */
  datatype Request = Request(change: Change, end: End)
  {
    predicate HeardAddition() { change.Adding? && end.Heard? }
  }

  function OpOf(c: Change): Op { if c.Adding? then Arm(c.place) else Disarm(c.place) }

  /** The registry, the places armed by the commands whose replies have been used up, and the commands whose
      replies have not. */
  datatype Desk = Desk(specs: seq<Spec>, nextId: nat, armed: set<Place>, owed: seq<Op>)

  function SpecAt(specs: seq<Spec>, p: Place): (i: nat)
    ensures i <= |specs| && forall k :: 0 <= k < i ==> specs[k].place != p
    ensures i < |specs| ==> specs[i].place == p
  {
    if specs == [] || specs[0].place == p then 0 else 1 + SpecAt(specs[1..], p)
  }

  function Unregistered(specs: seq<Spec>, c: Change): seq<Spec> {
    var i := SpecAt(specs, c.place);
    if c.Removing? && i < |specs| then Without(specs, i) else specs
  }

  function Done(op: Op, armed: set<Place>, accepted: bool): set<Place> {
    if accepted then Changed(op, armed) else armed
  }

  /** One call.  The reply it uses up is that of the oldest command owed, its own only if there is none;
      `accepted` says what that reply says, `end` whether the client hears it. */
  function Served(d: Desk, r: Request, accepted: bool): Desk {
    var specs, all := Unregistered(d.specs, r.change), d.owed + [OpOf(r.change)];
    if r.end.BeforeAck? then Desk(specs, d.nextId, d.armed, all)
    else
      var armed := Done(all[0], d.armed, accepted);
      if r.HeardAddition() && accepted
      then Desk(specs + [NewSpec(d.nextId, r.change.place)], d.nextId + 1, armed, all[1..])
      else Desk(specs, d.nextId, armed, all[1..])
  }

  function ServedAll(d: Desk, requests: seq<Request>, heard: seq<bool>): Desk
    requires |requests| == |heard|
    decreases |requests|
  {
    if requests == [] then d else ServedAll(Served(d, requests[0], heard[0]), requests[1..], heard[1..])
  }

  // ---- agreement, whatever the replies still owed ----

  /** What is armed once the commands owed have been served. */
  function ArmedWith(armed: set<Place>, owed: seq<Op>, oks: seq<bool>): set<Place>
    requires |owed| == |oks|
    decreases |owed|
  {
    if owed == [] then armed else ArmedWith(Done(owed[0], armed, oks[0]), owed[1..], oks[1..])
  }

  /** The places armed whatever the replies owed. */
  function Certain(d: Desk): set<Place> { set p | p in d.armed && Disarm(p) !in d.owed }

  predicate Sure(d: Desk) { Places(d.specs) <= Certain(d) }

  lemma {:induction false} CertainStays(armed: set<Place>, owed: seq<Op>, oks: seq<bool>, p: Place)
    requires |owed| == |oks| && p in armed && Disarm(p) !in owed
    ensures p in ArmedWith(armed, owed, oks)
    decreases |owed|
  {
    if owed == [] {
    } else {
      assert owed[0] in owed;
      CertainStays(Done(owed[0], armed, oks[0]), owed[1..], oks[1..], p);
    }
  }

  /** The replies that leave the least armed: additions refused, removals accepted. */
  function Worst(owed: seq<Op>): (oks: seq<bool>)
    ensures |oks| == |owed|
  {
    if owed == [] then [] else [owed[0].Disarm?] + Worst(owed[1..])
  }

  lemma WorstFirst(owed: seq<Op>, armed: set<Place>, p: Place)
    requires owed != []
    ensures Worst(owed)[1..] == Worst(owed[1..])
    ensures p in Done(owed[0], armed, Worst(owed)[0]) ==> p in armed && owed[0] != Disarm(p)
  {
  }

  lemma {:induction false} WorstCase(armed: set<Place>, owed: seq<Op>, p: Place)
    ensures p in ArmedWith(armed, owed, Worst(owed)) ==> p in armed && Disarm(p) !in owed
    decreases |owed|
  {
    if owed == [] {
    } else {
      var next := Done(owed[0], armed, Worst(owed)[0]);
      WorstCase(next, owed[1..], p);
      WorstFirst(owed, armed, p);
      hide Done, Worst;
      assert owed == [owed[0]] + owed[1..];
    }
  }

  /** The registry agrees with the stub whatever the replies still owed if and only if every registered place
      is certain. */
  lemma SureExactly(d: Desk)
    ensures Sure(d) <==>
      forall oks: seq<bool> :: |oks| == |d.owed| ==> Places(d.specs) <= ArmedWith(d.armed, d.owed, oks)
  {
    if Sure(d) {
      forall oks: seq<bool> | |oks| == |d.owed| ensures Places(d.specs) <= ArmedWith(d.armed, d.owed, oks) {
        forall p | p in Places(d.specs) ensures p in ArmedWith(d.armed, d.owed, oks) {
          CertainStays(d.armed, d.owed, oks, p);
        }
      }
    } else {
      var p :| p in Places(d.specs) && p !in Certain(d);
      WorstCase(d.armed, d.owed, p);
      assert !(Places(d.specs) <= ArmedWith(d.armed, d.owed, Worst(d.owed)));
    }
  }

  // ---- one call ----

  /** The caller removes what is registered and adds where nothing is. */
  predicate Proper(d: Desk, c: Change) { c.Removing? <==> c.place in Places(d.specs) }

  /** An acceptance heard now means that the place is armed, whatever the replies owed: nothing is owed, or the
      acceptance is that of an earlier command that leaves the place armed, and no removal of it is owed. */
  predicate Backed(d: Desk, p: Place) {
    d.owed == [] || (p in Done(d.owed[0], d.armed, true) && Disarm(p) !in d.owed[1..])
  }

  lemma PlacesUnregistered(specs: seq<Spec>, c: Change)
    requires Distinct(specs)
    ensures Distinct(Unregistered(specs, c))
    ensures Places(Unregistered(specs, c)) == if c.Removing? then Places(specs) - {c.place} else Places(specs)
  {
    var i := SpecAt(specs, c.place);
    if c.Removing? && i < |specs| {
      PlacesWithout(specs, i);
    }
  }

  /** Only an addition that is heard accepted can break the agreement, and it does exactly when it is not
      backed.  A removal never does, nor does a call that is given up. */
  lemma CallSureExactly(d: Desk, r: Request, accepted: bool)
    requires Sure(d) && Distinct(d.specs) && Proper(d, r.change)
    ensures Distinct(Served(d, r, accepted).specs)
    ensures Sure(Served(d, r, accepted)) <==>
      (r.HeardAddition() && accepted ==> Backed(d, r.change.place))
  {
    var p := r.change.place;
    PlacesUnregistered(d.specs, r.change);
    StillCertain(d, r, accepted);
    var e := Served(d, r, accepted);
    if r.HeardAddition() && accepted {
      PlacesAdded(d.specs, NewSpec(d.nextId, p));
      AddedIsCertain(d, r);
    }
  }

  lemma AddedIsCertain(d: Desk, r: Request)
    requires r.HeardAddition()
    ensures r.change.place in Certain(Served(d, r, true)) <==> Backed(d, r.change.place)
  {
    var p, all := r.change.place, d.owed + [OpOf(r.change)];
    if d.owed == [] {
      assert all == [Arm(p)] && all[1..] == [];
    } else {
      assert all[1..] == d.owed[1..] + [Arm(p)] && all[0] == d.owed[0];
    }
  }

  /** Places that are certain stay so, but for the one that is removed. */
  lemma StillCertain(d: Desk, r: Request, accepted: bool)
    ensures forall q :: q in Certain(d) && (r.change.Adding? || q != r.change.place) ==>
      q in Certain(Served(d, r, accepted))
  {
    var e, all := Served(d, r, accepted), d.owed + [OpOf(r.change)];
    forall q | q in Certain(d) && (r.change.Adding? || q != r.change.place) ensures q in Certain(e) {
      assert Disarm(q) !in all;
      assert all[0] in all;
    }
  }

  // ---- whole runs ----

  /** Every call of the run is proper. */
  predicate ProperAll(d: Desk, requests: seq<Request>, heard: seq<bool>)
    requires |requests| == |heard|
    decreases |requests|
  {
    requests != [] ==>
      Proper(d, requests[0].change) && ProperAll(Served(d, requests[0], heard[0]), requests[1..], heard[1..])
  }

  /** The registry agrees with the stub in every state of the run, whatever the replies owed in it. */
  predicate AlwaysSure(d: Desk, requests: seq<Request>, heard: seq<bool>)
    requires |requests| == |heard|
    decreases |requests|
  {
    Sure(d) && (requests != [] ==> AlwaysSure(Served(d, requests[0], heard[0]), requests[1..], heard[1..]))
  }

  /** Every addition that is heard accepted is backed. */
  predicate AllBacked(d: Desk, requests: seq<Request>, heard: seq<bool>)
    requires |requests| == |heard|
    decreases |requests|
  {
    requests != [] ==>
      (requests[0].HeardAddition() && heard[0] ==> Backed(d, requests[0].change.place))
      && AllBacked(Served(d, requests[0], heard[0]), requests[1..], heard[1..])
  }

  /** On every run the registry agrees throughout if and only if every addition heard accepted is backed. */
  lemma {:induction false} RunSureExactly(d: Desk, requests: seq<Request>, heard: seq<bool>)
    requires |requests| == |heard| && Sure(d) && Distinct(d.specs) && ProperAll(d, requests, heard)
    ensures AlwaysSure(d, requests, heard) <==> AllBacked(d, requests, heard)
    decreases |requests|
  {
    hide Sure, Distinct, Served, Backed, Proper;
    if requests == [] {
    } else {
      CallSureExactly(d, requests[0], heard[0]);
      var e := Served(d, requests[0], heard[0]);
      if Sure(e) {
        RunSureExactly(e, requests[1..], heard[1..]);
      } else {
        NeverSure(e, requests[1..], heard[1..]);
      }
    }
  }

  lemma NeverSure(d: Desk, requests: seq<Request>, heard: seq<bool>)
    requires |requests| == |heard|
    ensures AlwaysSure(d, requests, heard) ==> Sure(d)
  {
  }

  // ---- the condition in terms of the calls ----

  /** Additions are at places nobody has asked for yet: not armed at the start, and not asked for before. */
  predicate Fresh(asked: set<Place>, requests: seq<Request>)
    decreases |requests|
  {
    requests != [] ==>
      var c := requests[0].change;
      (c.Adding? ==> c.place !in asked) && Fresh(asked + {c.place}, requests[1..])
  }

  /** No addition is heard after a command has been given up before its ack. */
  predicate NoAdditionAfterLoss(requests: seq<Request>) {
    forall i, j :: 0 <= i < j < |requests| && requests[i].end.BeforeAck? ==>
      !requests[j].HeardAddition()
  }

  predicate AnyLoss(requests: seq<Request>) { exists i :: 0 <= i < |requests| && requests[i].end.BeforeAck? }

  /** Everything armed or owed has been asked for. */
  predicate Within(d: Desk, asked: set<Place>) {
    d.armed <= asked && Places(d.specs) <= asked && forall o <- d.owed :: Changes(o) && o.place in asked
  }

  lemma ServedWithin(d: Desk, r: Request, accepted: bool, asked: set<Place>)
    requires Within(d, asked) && Distinct(d.specs)
    ensures Within(Served(d, r, accepted), asked + {r.change.place})
  {
    PlacesUnregistered(d.specs, r.change);
    PlacesAdded(Unregistered(d.specs, r.change), NewSpec(d.nextId, r.change.place));
    var all := d.owed + [OpOf(r.change)];
    assert all[0] in all;
    assert forall o <- all[1..] :: o in all;
  }

  /** A fresh place is backed exactly when nothing is owed. */
  lemma FreshBacked(d: Desk, p: Place, asked: set<Place>)
    requires Within(d, asked) && p !in asked
    ensures Backed(d, p) <==> d.owed == []
  {
  }

  /** An addition is heard while a command is owed; `owing` says whether one is to begin with. */
  predicate Risky(owing: bool, requests: seq<Request>)
    decreases |requests|
  {
    requests != [] &&
    ((owing && requests[0].HeardAddition())
     || Risky(owing || requests[0].end.BeforeAck?, requests[1..]))
  }

  lemma {:induction false} RiskyExactly(owing: bool, requests: seq<Request>)
    ensures Risky(owing, requests) <==>
      exists j :: 0 <= j < |requests| && requests[j].HeardAddition() && (owing || AnyLoss(requests[..j]))
    decreases |requests|
  {
    if requests == [] {
    } else {
      var rest, more := requests[1..], owing || requests[0].end.BeforeAck?;
      RiskyExactly(more, rest);
      forall j | 0 <= j < |rest| ensures (owing || AnyLoss(requests[..j + 1])) == (more || AnyLoss(rest[..j])) {
        LossBehind(requests, j);
      }
      if Risky(more, rest) {
        var j :| 0 <= j < |rest| && rest[j].HeardAddition() && (more || AnyLoss(rest[..j]));
        assert requests[j + 1] == rest[j];
      }
      if j :| 0 < j < |requests| && requests[j].HeardAddition() && (owing || AnyLoss(requests[..j])) {
        assert rest[j - 1] == requests[j];
      }
      assert !AnyLoss(requests[..0]);
    }
  }

  lemma LossBehind(requests: seq<Request>, j: nat)
    requires j < |requests|
    ensures AnyLoss(requests[..j + 1]) == (requests[0].end.BeforeAck? || AnyLoss(requests[1..][..j]))
  {
    var upto, rest := requests[..j + 1], requests[1..][..j];
    if i :| 0 < i < |upto| && upto[i].end.BeforeAck? {
      assert rest[i - 1] == upto[i];
    }
    if i :| 0 <= i < |rest| && rest[i].end.BeforeAck? {
      assert upto[i + 1] == rest[i];
    }
  }

  /** With more registered, the same calls are proper. */
  lemma {:induction false} ProperWithMore(d: Desk, d': Desk, requests: seq<Request>, heard: seq<bool>,
                                          asked: set<Place>)
    requires |requests| == |heard| && ProperAll(d, requests, heard) && Fresh(asked, requests)
    requires Places(d.specs) <= Places(d'.specs) <= asked && Distinct(d.specs) && Distinct(d'.specs)
    ensures ProperAll(d', requests, heard)
    decreases |requests|
  {
    hide Places, Distinct, Served;
    if requests == [] {
    } else {
      var p := requests[0].change.place;
      PlacesServed(d, requests[0], heard[0]);
      PlacesServed(d', requests[0], heard[0]);
      ProperWithMore(Served(d, requests[0], heard[0]), Served(d', requests[0], heard[0]), requests[1..], heard[1..],
        asked + {p});
    }
  }

  lemma PlacesServed(d: Desk, r: Request, accepted: bool)
    requires Distinct(d.specs) && Proper(d, r.change)
    ensures Distinct(Served(d, r, accepted).specs)
    ensures Places(Served(d, r, accepted).specs) ==
      if r.change.Removing? then Places(d.specs) - {r.change.place}
      else if r.end.Heard? && accepted then Places(d.specs) + {r.change.place} else Places(d.specs)
  {
    PlacesUnregistered(d.specs, r.change);
    PlacesAdded(Unregistered(d.specs, r.change), NewSpec(d.nextId, r.change.place));
  }

  lemma {:induction false} SafeRuns(d: Desk, requests: seq<Request>, heard: seq<bool>, asked: set<Place>)
    requires |requests| == |heard| && Distinct(d.specs) && Within(d, asked) && Fresh(asked, requests)
    requires ProperAll(d, requests, heard) && !Risky(d.owed != [], requests)
    ensures AllBacked(d, requests, heard)
    decreases |requests|
  {
    hide Distinct, Within, Proper, Backed, Served;
    if requests == [] {
    } else {
      var r := requests[0];
      if r.change.Adding? {
        FreshBacked(d, r.change.place, asked);
      }
      ServedWithin(d, r, heard[0], asked);
      PlacesServed(d, r, heard[0]);
      OwedGrows(d, r, heard[0]);
      SafeRuns(Served(d, r, heard[0]), requests[1..], heard[1..], asked + {r.change.place});
    }
  }

  lemma OwedGrows(d: Desk, r: Request, accepted: bool)
    ensures |Served(d, r, accepted).owed| == |d.owed| + if r.end.BeforeAck? then 1 else 0
  {
  }

  /** On risky calls some replies break the agreement. */
  lemma {:induction false} RiskyRuns(d: Desk, requests: seq<Request>, heard: seq<bool>, asked: set<Place>)
    returns (bad: seq<bool>)
    requires |requests| == |heard| && Distinct(d.specs) && Within(d, asked) && Fresh(asked, requests)
    requires ProperAll(d, requests, heard) && Risky(d.owed != [], requests)
    ensures |bad| == |requests| && ProperAll(d, requests, bad) && !AllBacked(d, requests, bad)
    decreases |requests|
  {
    hide Distinct, Within, Proper, Backed, Served;
    var r, rest := requests[0], requests[1..];
    ServedWithin(d, r, heard[0], asked);
    ServedWithin(d, r, true, asked);
    PlacesServed(d, r, heard[0]);
    PlacesServed(d, r, true);
    if d.owed != [] && r.HeardAddition() {
      FreshBacked(d, r.change.place, asked);
      PlacesWithin(Served(d, r, true), asked + {r.change.place});
      ProperWithMore(Served(d, r, heard[0]), Served(d, r, true), rest, heard[1..], asked + {r.change.place});
      bad := [true] + heard[1..];
    } else {
      OwedGrows(d, r, heard[0]);
      var tail := RiskyRuns(Served(d, r, heard[0]), rest, heard[1..], asked + {r.change.place});
      bad := [heard[0]] + tail;
      assert bad[1..] == tail;
    }
  }

  lemma PlacesWithin(d: Desk, asked: set<Place>)
    requires Within(d, asked)
    ensures Places(d.specs) <= asked
  {
  }

  /** For calls that can be made at all, and ask for no place twice: the registry agrees with the stub in every
      state, whatever the stub replies, if and only if no addition is heard after a call has been given up
      before its ack. */
  lemma AgreesExactly(d: Desk, requests: seq<Request>, asked: set<Place>, heard: seq<bool>)
    requires d.owed == [] && Sure(d) && Distinct(d.specs) && Within(d, asked) && Fresh(asked, requests)
    requires |heard| == |requests| && ProperAll(d, requests, heard)
    ensures NoAdditionAfterLoss(requests) <==>
      forall hs: seq<bool> :: |hs| == |requests| && ProperAll(d, requests, hs) ==> AlwaysSure(d, requests, hs)
  {
    hide Sure, Distinct, Within, Fresh, ProperAll, AlwaysSure, AllBacked, Risky;
    RiskyMeansLoss(requests);
    if NoAdditionAfterLoss(requests) {
      forall hs: seq<bool> | |hs| == |requests| && ProperAll(d, requests, hs) ensures AlwaysSure(d, requests, hs) {
        SafeRuns(d, requests, hs, asked);
        RunSureExactly(d, requests, hs);
      }
    } else {
      var bad := RiskyRuns(d, requests, heard, asked);
      RunSureExactly(d, requests, bad);
    }
  }

  lemma RiskyMeansLoss(requests: seq<Request>)
    ensures Risky(false, requests) <==> !NoAdditionAfterLoss(requests)
  {
    RiskyExactly(false, requests);
    if Risky(false, requests) {
      var j :| 0 <= j < |requests| && requests[j].HeardAddition() && AnyLoss(requests[..j]);
      var i :| 0 <= i < j && requests[..j][i].end.BeforeAck?;
      assert requests[i].end.BeforeAck?;
    }
    if !NoAdditionAfterLoss(requests) {
      var i, j :| 0 <= i < j < |requests| && requests[i].end.BeforeAck? && requests[j].HeardAddition();
      assert requests[..j][i].end.BeforeAck?;
    }
  }

  // ---- the same run seen from the stub, which answers its commands in order ----

  function Ops(requests: seq<Request>): (r: seq<Op>)
    ensures |r| == |requests|
  {
    if requests == [] then [] else [OpOf(requests[0].change)] + Ops(requests[1..])
  }

  function Ends(requests: seq<Request>): (r: seq<End>)
    ensures |r| == |requests|
  {
    if requests == [] then [] else [requests[0].end] + Ends(requests[1..])
  }

  /** What each call's reply says when `oks` are the stub's answers to the commands, those owed first. */
  function HeardOf(requests: seq<Request>, oks: seq<bool>): (heard: seq<bool>)
    requires |requests| <= |oks|
    ensures |heard| == |requests|
    decreases |requests|
  {
    if requests == [] then []
    else [oks[0]] + HeardOf(requests[1..], if requests[0].end.BeforeAck? then oks else oks[1..])
  }

  lemma {:induction false} UsedInFront(ends: seq<End>)
    requires ends != []
    ensures Used(ends) == Used(ends[1..]) + if ends[0].BeforeAck? then 0 else 1
  {
    var init := ends[..|ends| - 1];
    if |ends| == 1 {
      assert init == [] && ends[1..] == [];
    } else {
      UsedInFront(init);
      assert init[1..] == ends[1..][..|ends| - 2];
    }
  }

  /** A call uses up the answer to the command that stands as many places before its own as calls have been
      given up before their ack, as the client does. */
  lemma {:induction false} HeardIs(requests: seq<Request>, oks: seq<bool>, k: nat)
    requires k < |requests| <= |oks|
    ensures Used(Ends(requests)[..k]) < |oks| && HeardOf(requests, oks)[k] == oks[Used(Ends(requests)[..k])]
    decreases |requests|
  {
    var r, rest := requests[0], requests[1..];
    if k == 0 {
      assert Ends(requests)[..0] == [];
    } else {
      var next := if r.end.BeforeAck? then oks else oks[1..];
      HeardIs(rest, next, k - 1);
      var ends := Ends(requests)[..k];
      assert ends[1..] == Ends(rest)[..k - 1];
      UsedInFront(ends);
    }
  }

  /** The books of the run are those of the stub: what the stub has armed when it has answered every command
      is what the replies used up have armed, and those still owed. */
  lemma {:induction false} StubArms(d: Desk, requests: seq<Request>, oks: seq<bool>)
    requires |oks| == |d.owed| + |requests|
    ensures var e := ServedAll(d, requests, HeardOf(requests, oks));
      |e.owed| <= |oks|
      && ArmedWith(d.armed, d.owed + Ops(requests), oks) == ArmedWith(e.armed, e.owed, oks[|oks| - |e.owed|..])
    decreases |requests|
  {
    if requests == [] {
      assert d.owed + [] == d.owed && oks[0..] == oks;
    } else {
      var r, rest := requests[0], requests[1..];
      var next, heard := if r.end.BeforeAck? then oks else oks[1..], HeardOf(requests, oks);
      var d1 := Served(d, r, oks[0]);
      assert heard[1..] == HeardOf(rest, next);
      StubArms(d1, rest, next);
      ServedOwes(d, r, oks, rest);
      var e := ServedAll(d1, rest, heard[1..]);
      assert next[|next| - |e.owed|..] == oks[|oks| - |e.owed|..];
    }
  }

  lemma ServedOwes(d: Desk, r: Request, oks: seq<bool>, rest: seq<Request>)
    requires |oks| == |d.owed| + 1 + |rest|
    ensures var d1, next := Served(d, r, oks[0]), if r.end.BeforeAck? then oks else oks[1..];
      |next| == |d1.owed| + |rest|
      && ArmedWith(d.armed, d.owed + Ops([r] + rest), oks) == ArmedWith(d1.armed, d1.owed + Ops(rest), next)
  {
    var all, ops := d.owed + [OpOf(r.change)], Ops(rest);
    assert ([r] + rest)[1..] == rest;
    assert d.owed + Ops([r] + rest) == all + ops;
    assert (all + ops)[1..] == all[1..] + ops;
  }

  /** From a line on which nothing is owed: the registry after the calls agrees with what the stub has armed
      when it has answered them all, whatever it answered, if no addition is heard after a loss. */
  lemma StubAgrees(d: Desk, requests: seq<Request>, asked: set<Place>, oks: seq<bool>)
    requires d.owed == [] && Sure(d) && Distinct(d.specs) && Within(d, asked) && Fresh(asked, requests)
    requires |oks| == |requests| && ProperAll(d, requests, HeardOf(requests, oks)) && NoAdditionAfterLoss(requests)
    ensures Places(ServedAll(d, requests, HeardOf(requests, oks)).specs) <= ArmedWith(d.armed, Ops(requests), oks)
  {
    hide Sure, Distinct, Within, Fresh, ProperAll, AlwaysSure, NoAdditionAfterLoss, Served, ServedAll, HeardOf, Places;
    hide ArmedWith, Ops;
    var heard := HeardOf(requests, oks);
    var e := ServedAll(d, requests, heard);
    AgreesExactly(d, requests, asked, heard);
    SureAtEnd(d, requests, heard);
    StubArms(d, requests, oks);
    assert [] + Ops(requests) == Ops(requests);
    SureExactly(e);
  }

  lemma {:induction false} SureAtEnd(d: Desk, requests: seq<Request>, heard: seq<bool>)
    requires |requests| == |heard| && AlwaysSure(d, requests, heard)
    ensures Sure(ServedAll(d, requests, heard))
    decreases |requests|
  {
    if requests == [] {
    } else {
      SureAtEnd(Served(d, requests[0], heard[0]), requests[1..], heard[1..]);
    }
  }
}
