/** The breakpoint registry in insertion order, the attribution of a stop to a breakpoint, and the
    agreement between the registry and what is armed at the stub. */
module Registry {
  import opened Text
  import opened Wire
  import StopReply

  datatype Capture = Capture(stop: StopReply.Reply, replies: seq<string>)

  datatype Spec = Spec(id: nat, place: Place, autoContinue: bool, captures: seq<string>, condition: string,
                       log: seq<Capture>)

  function NewSpec(id: nat, place: Place): Spec { Spec(id, place, false, [], "", []) }

  /** Ids ascend in insertion order and all lie below the next id to be given out. */
  predicate WellNumbered(specs: seq<Spec>, nextId: nat) {
    && (forall i, j :: 0 <= i < j < |specs| ==> specs[i].id < specs[j].id)
    && (forall i :: 0 <= i < |specs| ==> specs[i].id < nextId)
  }

  /** The position of `id`, or the length when there is no such spec. */
  function Find(specs: seq<Spec>, id: nat): (i: nat)
    ensures i <= |specs|
    ensures forall k :: 0 <= k < i ==> specs[k].id != id
    ensures i < |specs| ==> specs[i].id == id
  {
    if specs == [] || specs[0].id == id then 0 else 1 + Find(specs[1..], id)
  }

  function Without(specs: seq<Spec>, i: nat): seq<Spec>
    requires i < |specs|
  {
    specs[..i] + specs[i + 1..]
  }

  function Places(specs: seq<Spec>): set<Place> { set i | 0 <= i < |specs| :: specs[i].place }

  // ---- attribution of a stop ----

  datatype Rule = Annotation | ProgramCounter | AnyWatchpoint

  predicate IsWatchpoint(k: Kind) { k.WriteWp? || k.ReadWp? || k.AccessWp? }

  predicate KindFits(watchKind: Option<string>, k: Kind) {
    match watchKind
    case Some("watch") => k.WriteWp?
    case Some("rwatch") => k.ReadWp?
    case Some("awatch") => k.AccessWp?
    case _ => true
  }

  predicate Fits(s: Spec, p: StopReply.Reply, rule: Rule) {
    match rule
    case Annotation => p.watchAddr == Some(s.place.addr) && KindFits(p.watchKind, s.place.kind)
    case ProgramCounter => p.Pc() == Some(s.place.addr) && !IsWatchpoint(s.place.kind)
    case AnyWatchpoint => IsWatchpoint(s.place.kind)
  }

  function Fitting(specs: seq<Spec>, p: StopReply.Reply, rule: Rule): (ids: seq<nat>)
    ensures forall id <- ids :: exists i :: 0 <= i < |specs| && specs[i].id == id && Fits(specs[i], p, rule)
    ensures forall i :: 0 <= i < |specs| && Fits(specs[i], p, rule) ==> specs[i].id in ids
  {
    if specs == [] then []
    else
      var rest := Fitting(specs[1..], p, rule);
      assert forall i :: 1 <= i < |specs| ==> specs[i] == specs[1..][i - 1];
      if Fits(specs[0], p, rule) then [specs[0].id] + rest else rest
  }

  /** Annotation first, then program counter, then a lone watchpoint. */
  function Attributed(specs: seq<Spec>, p: StopReply.Reply): Option<nat> {
    var a, c, w := Fitting(specs, p, Annotation), Fitting(specs, p, ProgramCounter), Fitting(specs, p, AnyWatchpoint);
    if a != [] then Some(a[0]) else if c != [] then Some(c[0]) else if |w| == 1 then Some(w[0]) else None
  }

  lemma {:induction false} FittingFirst(specs: seq<Spec>, p: StopReply.Reply, rule: Rule, n: nat)
    requires n <= |specs| && forall k :: 0 <= k < n ==> !Fits(specs[k], p, rule)
    ensures Fitting(specs, p, rule) == Fitting(specs[n..], p, rule)
  {
    if n == 0 {
    } else {
      assert specs[1..][n - 1..] == specs[n..];
      assert forall k :: 0 <= k < n - 1 ==> specs[1..][k] == specs[k + 1];
      FittingFirst(specs[1..], p, rule, n - 1);
    }
  }

  lemma {:induction false} FittingSnoc(specs: seq<Spec>, s: Spec, p: StopReply.Reply, rule: Rule)
    ensures Fitting(specs + [s], p, rule) == Fitting(specs, p, rule) + if Fits(s, p, rule) then [s.id] else []
  {
    if specs == [] {
      assert Fitting([s][1..], p, rule) == [];
    } else {
      assert (specs + [s])[1..] == specs[1..] + [s];
      FittingSnoc(specs[1..], s, p, rule);
    }
  }

  /** `_match_bp` as written: two searches that return the first hit, then the list of watchpoints. */
  method MatchBp(p: StopReply.Reply, specs: seq<Spec>) returns (id: Option<nat>)
    ensures id == Attributed(specs, p)
  {
    if p.watchAddr.Some? {
      for i := 0 to |specs|
        invariant forall k :: 0 <= k < i ==> !Fits(specs[k], p, Annotation)
      {
        if specs[i].place.addr == p.watchAddr.value && KindFits(p.watchKind, specs[i].place.kind) {
          FittingFirst(specs, p, Annotation, i);
          return Some(specs[i].id);
        }
      }
    }
    FittingFirst(specs, p, Annotation, |specs|);
    if p.Pc().Some? {
      for i := 0 to |specs|
        invariant forall k :: 0 <= k < i ==> !Fits(specs[k], p, ProgramCounter)
      {
        if !IsWatchpoint(specs[i].place.kind) && specs[i].place.addr == p.Pc().value {
          FittingFirst(specs, p, ProgramCounter, i);
          return Some(specs[i].id);
        }
      }
    }
    FittingFirst(specs, p, ProgramCounter, |specs|);
    var wps: seq<nat> := [];
    for i := 0 to |specs|
      invariant wps == Fitting(specs[..i], p, AnyWatchpoint)
    {
      assert specs[..i + 1] == specs[..i] + [specs[i]];
      FittingSnoc(specs[..i], specs[i], p, AnyWatchpoint);
      if IsWatchpoint(specs[i].place.kind) {
        wps := wps + [specs[i].id];
      }
    }
    assert specs[..|specs|] == specs;
    id := if |wps| == 1 then Some(wps[0]) else None;
  }

  lemma {:induction false} FittingLeast(specs: seq<Spec>, p: StopReply.Reply, rule: Rule, nextId: nat)
    requires WellNumbered(specs, nextId) && Fitting(specs, p, rule) != []
    ensures forall i :: 0 <= i < |specs| && Fits(specs[i], p, rule) ==> Fitting(specs, p, rule)[0] <= specs[i].id
  {
    if !Fits(specs[0], p, rule) {
      assert forall i :: 1 <= i < |specs| ==> specs[i] == specs[1..][i - 1];
      FittingLeast(specs[1..], p, rule, nextId);
    }
  }

  /** The rule that decides: the first of the three with a spec to name, the last one failing all. */
  function Deciding(specs: seq<Spec>, p: StopReply.Reply): Rule {
    if AnyFits(specs, p, Annotation) then Annotation
    else if AnyFits(specs, p, ProgramCounter) then ProgramCounter
    else AnyWatchpoint
  }

  predicate AnyFits(specs: seq<Spec>, p: StopReply.Reply, rule: Rule) {
    exists i :: 0 <= i < |specs| && Fits(specs[i], p, rule)
  }

  lemma FittingAny(specs: seq<Spec>, p: StopReply.Reply, rule: Rule)
    ensures Fitting(specs, p, rule) != [] <==> AnyFits(specs, p, rule)
  {
  }

  predicate Alone(specs: seq<Spec>, p: StopReply.Reply, rule: Rule, i: nat) {
    forall j :: 0 <= j < |specs| && Fits(specs[j], p, rule) ==> j == i
  }

  /** A stop is attributed to the least id among the specs its annotation names; failing those, among
      the breakpoints at its program counter; failing those, to the watchpoint if it is the only one. */
  lemma AttributedIsLeast(specs: seq<Spec>, p: StopReply.Reply, nextId: nat)
    requires WellNumbered(specs, nextId) && Attributed(specs, p).Some?
    ensures var id, rule := Attributed(specs, p).value, Deciding(specs, p);
      exists i :: 0 <= i < |specs| && specs[i].id == id && Fits(specs[i], p, rule)
        && (rule.AnyWatchpoint? ==> Alone(specs, p, rule, i))
    ensures var id, rule := Attributed(specs, p).value, Deciding(specs, p);
      forall i :: 0 <= i < |specs| && Fits(specs[i], p, rule) ==> id <= specs[i].id
  {
    var id, rule := Attributed(specs, p).value, Deciding(specs, p);
    var ids := Fitting(specs, p, rule);
    FittingAny(specs, p, Annotation);
    FittingAny(specs, p, ProgramCounter);
    assert ids != [] && ids[0] == id && id in ids;
    FittingLeast(specs, p, rule, nextId);
    var i :| 0 <= i < |specs| && specs[i].id == id && Fits(specs[i], p, rule);
    if rule.AnyWatchpoint? {
      forall j | 0 <= j < |specs| && Fits(specs[j], p, rule) ensures j == i {
        if j != i {
          TwoFit(specs, p, rule, if i < j then i else j, if i < j then j else i);
        }
      }
    }
  }

  /** A stop stays unattributed exactly when nothing but watchpoints could take it and there is none,
      or more than one. */
  lemma UnattributedExactly(specs: seq<Spec>, p: StopReply.Reply)
    ensures Attributed(specs, p).None? <==>
      Deciding(specs, p).AnyWatchpoint?
      && !exists i :: 0 <= i < |specs| && Fits(specs[i], p, AnyWatchpoint) && Alone(specs, p, AnyWatchpoint, i)
  {
    FittingAny(specs, p, Annotation);
    FittingAny(specs, p, ProgramCounter);
    LoneWatchpoint(specs, p);
  }

  lemma LoneWatchpoint(specs: seq<Spec>, p: StopReply.Reply)
    ensures |Fitting(specs, p, AnyWatchpoint)| == 1 <==>
      exists i :: 0 <= i < |specs| && Fits(specs[i], p, AnyWatchpoint) && Alone(specs, p, AnyWatchpoint, i)
  {
    var w := Fitting(specs, p, AnyWatchpoint);
    FittingAny(specs, p, AnyWatchpoint);
    if |w| == 1 {
      var i :| 0 <= i < |specs| && Fits(specs[i], p, AnyWatchpoint);
      forall j | 0 <= j < |specs| && Fits(specs[j], p, AnyWatchpoint) ensures j == i {
        if j != i {
          TwoFit(specs, p, AnyWatchpoint, if i < j then i else j, if i < j then j else i);
        }
      }
      assert Alone(specs, p, AnyWatchpoint, i);
    } else if |w| > 1 {
      var i, j := FitTwo(specs, p, AnyWatchpoint);
    }
  }

  lemma {:induction false} TwoFit(specs: seq<Spec>, p: StopReply.Reply, rule: Rule, i: nat, j: nat)
    requires i < j < |specs| && Fits(specs[i], p, rule) && Fits(specs[j], p, rule)
    ensures |Fitting(specs, p, rule)| > 1
  {
    assert specs[1..][j - 1] == specs[j];
    if i > 0 {
      assert specs[1..][i - 1] == specs[i];
      TwoFit(specs[1..], p, rule, i - 1, j - 1);
    } else {
      assert specs[1..][j - 1].id in Fitting(specs[1..], p, rule);
    }
  }

  lemma {:induction false} FitTwo(specs: seq<Spec>, p: StopReply.Reply, rule: Rule) returns (i: nat, j: nat)
    requires |Fitting(specs, p, rule)| > 1
    ensures i < j < |specs| && Fits(specs[i], p, rule) && Fits(specs[j], p, rule)
  {
    var rest := Fitting(specs[1..], p, rule);
    if Fits(specs[0], p, rule) {
      assert rest[0] in rest;
      var k :| 0 <= k < |specs[1..]| && Fits(specs[1..][k], p, rule);
      i, j := 0, k + 1;
    } else {
      i, j := FitTwo(specs[1..], p, rule);
      i, j := i + 1, j + 1;
    }
  }

  // ---- attribution of a printed stop ----

  /** The spec of least id among those that satisfy `wanted`. */
  ghost predicate LeastOf(specs: seq<Spec>, wanted: Spec -> bool, id: nat) {
    && (exists i :: 0 <= i < |specs| && wanted(specs[i]) && specs[i].id == id)
    && forall i :: 0 <= i < |specs| && wanted(specs[i]) ==> id <= specs[i].id
  }

  predicate Any(specs: seq<Spec>, wanted: Spec -> bool) { exists i :: 0 <= i < |specs| && wanted(specs[i]) }

  /** Its id is `id`, and it is the only one. */
  ghost predicate OnlyOf(specs: seq<Spec>, wanted: Spec -> bool, id: nat) {
    exists i :: 0 <= i < |specs| && wanted(specs[i]) && specs[i].id == id && NoOther(specs, wanted, i)
  }

  predicate NoOther(specs: seq<Spec>, wanted: Spec -> bool, i: nat) {
    forall j :: 0 <= j < |specs| && wanted(specs[j]) ==> j == i
  }

  lemma DecidedLeast(specs: seq<Spec>, p: StopReply.Reply, rule: Rule, wanted: Spec -> bool, nextId: nat)
    requires WellNumbered(specs, nextId) && Deciding(specs, p) == rule && !rule.AnyWatchpoint?
    requires forall s :: Fits(s, p, rule) <==> wanted(s)
    ensures Attributed(specs, p).Some? && LeastOf(specs, wanted, Attributed(specs, p).value)
  {
    UnattributedExactly(specs, p);
    hide Fits, Attributed, Deciding, WellNumbered;
    AttributedIsLeast(specs, p, nextId);
  }

  lemma DecidedOnly(specs: seq<Spec>, p: StopReply.Reply, wanted: Spec -> bool, nextId: nat)
    requires WellNumbered(specs, nextId) && Deciding(specs, p).AnyWatchpoint?
    requires forall s :: Fits(s, p, AnyWatchpoint) <==> wanted(s)
    ensures var a := Attributed(specs, p);
      if a.Some? then OnlyOf(specs, wanted, a.value) else forall id :: !OnlyOf(specs, wanted, id)
  {
    UnattributedExactly(specs, p);
    hide Fits, Attributed, Deciding, WellNumbered;
    if Attributed(specs, p).Some? {
      AttributedIsLeast(specs, p, nextId);
      var i :| 0 <= i < |specs| && specs[i].id == Attributed(specs, p).value && Fits(specs[i], p, AnyWatchpoint)
        && Alone(specs, p, AnyWatchpoint, i);
      assert NoOther(specs, wanted, i);
    }
  }

  function At(kind: Kind, addr: int): Spec -> bool { (s: Spec) => s.place.addr == addr && s.place.kind == kind }

  function BreakAt(pc: Option<int>): Spec -> bool {
    (s: Spec) => pc == Some(s.place.addr) && (s.place.kind == SwBp || s.place.kind == HwBp)
  }

  function Watching(): Spec -> bool {
    (s: Spec) => s.place.kind == WriteWp || s.place.kind == ReadWp || s.place.kind == AccessWp
  }

  /** A stop printed with `watch:a`, `rwatch:a` or `awatch:a` goes to the least id among the write, read or access
      watchpoints at `a`, if there is one. */
  lemma PrintedWatch(specs: seq<Spec>, signal: nat, items: seq<StopReply.Item>, kind: string, a: int, nextId: nat)
    requires signal < 256 && (forall it <- items :: it.Printable()) && WellNumbered(specs, nextId)
    requires StopReply.LastKind(items) == Some(kind) && StopReply.LastAddr(items) == Some(a)
    ensures var id := Attributed(specs, StopReply.Parse(StopReply.Print(signal, items)));
      && (kind == "watch" && Any(specs, At(WriteWp, a)) ==> id.Some? && LeastOf(specs, At(WriteWp, a), id.value))
      && (kind == "rwatch" && Any(specs, At(ReadWp, a)) ==> id.Some? && LeastOf(specs, At(ReadWp, a), id.value))
      && (kind == "awatch" && Any(specs, At(AccessWp, a)) ==> id.Some? && LeastOf(specs, At(AccessWp, a), id.value))
  {
    hide StopReply.Parse, StopReply.Print, Attributed, StopReply.LastKind, StopReply.LastAddr, WellNumbered, LeastOf;
    var p := StopReply.Parse(StopReply.Print(signal, items));
    StopReply.PrintedFields(signal, items, "");
    if kind == "watch" && Any(specs, At(WriteWp, a)) {
      DecidedLeast(specs, p, Annotation, At(WriteWp, a), nextId);
    } else if kind == "rwatch" && Any(specs, At(ReadWp, a)) {
      DecidedLeast(specs, p, Annotation, At(ReadWp, a), nextId);
    } else if kind == "awatch" && Any(specs, At(AccessWp, a)) {
      DecidedLeast(specs, p, Annotation, At(AccessWp, a), nextId);
    }
  }

  /** A stop printed without a watch annotation goes to the least id among the breakpoints, not watchpoints, at
      the program counter printed last, if there is one; failing that to the only watchpoint there is. */
  lemma PrintedBreak(specs: seq<Spec>, signal: nat, items: seq<StopReply.Item>, pc: Option<int>, nextId: nat)
    requires signal < 256 && (forall it <- items :: it.Printable()) && WellNumbered(specs, nextId)
    requires StopReply.LastAddr(items) == None && StopReply.LastValue(items, 0x40) == pc
    ensures var id := Attributed(specs, StopReply.Parse(StopReply.Print(signal, items)));
      if Any(specs, BreakAt(pc)) then id.Some? && LeastOf(specs, BreakAt(pc), id.value)
      else if id.Some? then OnlyOf(specs, Watching(), id.value)
      else forall i :: !OnlyOf(specs, Watching(), i)
  {
    hide StopReply.Parse, StopReply.Print, Attributed, StopReply.LastValue, StopReply.LastAddr, WellNumbered, LeastOf;
    hide OnlyOf;
    var p := StopReply.Parse(StopReply.Print(signal, items));
    StopReply.PrintedFields(signal, items, "");
    StopReply.PrintedNames(signal, items);
    assert forall s :: Fits(s, p, ProgramCounter) <==> BreakAt(pc)(s);
    if Any(specs, BreakAt(pc)) {
      DecidedLeast(specs, p, ProgramCounter, BreakAt(pc), nextId);
    } else {
      DecidedOnly(specs, p, Watching(), nextId);
    }
  }

  // ---- agreement with the stub ----

  datatype Books = Books(specs: seq<Spec>, nextId: nat, armed: set<Place>)

  /** One call: an addition or a removal that the stub accepted, refused, or did not answer in time; then
      it may or may not have done what was asked.  An addition may also be registered on a reply that need not
      be its own, when something was still in flight (`AddUnsure`). */
  datatype Call =
    | Added(place: Place) | AddRefused | AddLost(place: Place, done: bool) | AddUnsure(place: Place, done: bool)
    | Removed(id: nat) | RemoveRefused(id: nat) | RemoveLost(id: nat, done: bool)
  {
    /** The stub has answered this call. */
    predicate Answered() { Added? || AddRefused? || Removed? || RemoveRefused? }
  }

  function After(b: Books, c: Call): Books {
    match c
    case Added(place) => Books(b.specs + [NewSpec(b.nextId, place)], b.nextId + 1, b.armed + {place})
    case AddRefused => b
    case AddLost(place, done) => if done then b.(armed := b.armed + {place}) else b
    case AddUnsure(place, done) =>
      Books(b.specs + [NewSpec(b.nextId, place)], b.nextId + 1, if done then b.armed + {place} else b.armed)
    case Removed(id) => Dropped(b, id, true)
    case RemoveRefused(id) => Dropped(b, id, false)
    case RemoveLost(id, done) => Dropped(b, id, done)
  }

  /** The spec leaves the registry whatever the stub says; `done` says whether its place is disarmed. */
  function Dropped(b: Books, id: nat, done: bool): Books {
    var i := Find(b.specs, id);
    if i == |b.specs| then b
    else Books(Without(b.specs, i), b.nextId, if done then b.armed - {b.specs[i].place} else b.armed)
  }

  /** The call leaves a place armed that no spec stands for, or a spec whose place it has not armed. */
  predicate Strays(c: Call) {
    match c
    case RemoveRefused(_) => true
    case RemoveLost(_, done) => !done
    case AddLost(_, done) => done
    case AddUnsure(_, done) => !done
    case _ => false
  }

  /** Every registered spec is armed at the stub. */
  predicate Agrees(b: Books) { Places(b.specs) <= b.armed }

  predicate Distinct(specs: seq<Spec>) {
    forall i, j :: 0 <= i < j < |specs| ==> specs[i].place != specs[j].place
  }

  lemma WithoutNumbered(specs: seq<Spec>, i: nat, nextId: nat)
    requires WellNumbered(specs, nextId) && i < |specs|
    ensures WellNumbered(Without(specs, i), nextId)
    ensures Find(Without(specs, i), specs[i].id) == |specs| - 1
    ensures Distinct(specs) ==> Distinct(Without(specs, i))
  {
  }

  lemma PlacesWithout(specs: seq<Spec>, i: nat)
    requires i < |specs|
    ensures Places(specs) == Places(Without(specs, i)) + {specs[i].place}
    ensures specs[i].place in Places(Without(specs, i)) <==>
      exists j :: 0 <= j < |specs| && j != i && specs[j].place == specs[i].place
  {
    var w := Without(specs, i);
    forall p | p in Places(specs) ensures p in Places(w) + {specs[i].place} {
      var j :| 0 <= j < |specs| && specs[j].place == p;
      if j < i {
        assert w[j].place == p;
      } else if j > i {
        assert w[j - 1].place == p;
      }
    }
    forall p | p in Places(w) ensures p in Places(specs) {
      var j :| 0 <= j < |w| && w[j].place == p;
      assert specs[if j < i then j else j + 1].place == p;
    }
    forall j | 0 <= j < |specs| && j != i && specs[j].place == specs[i].place
      ensures specs[i].place in Places(w)
    {
      assert w[if j < i then j else j - 1] == specs[j];
    }
    if specs[i].place in Places(w) {
      var j :| 0 <= j < |w| && w[j].place == specs[i].place;
      var k := if j < i then j else j + 1;
      assert k != i && specs[k].place == specs[i].place;
    }
  }

  lemma PlacesAdded(specs: seq<Spec>, s: Spec)
    ensures Places(specs + [s]) == Places(specs) + {s.place}
  {
    var more := specs + [s];
    assert more[|specs|] == s;
    forall p | p in Places(specs) ensures p in Places(more) {
      var j :| 0 <= j < |specs| && specs[j].place == p;
      assert more[j].place == p;
    }
  }

  /** Removing a spec keeps the registry in agreement with the stub if and only if no other live spec
      is at the same place: the two share the stub's one breakpoint. */
  lemma RemovalAgrees(b: Books, id: nat)
    requires WellNumbered(b.specs, b.nextId) && Agrees(b) && Find(b.specs, id) < |b.specs|
    ensures Agrees(After(b, Removed(id))) <==>
      var i := Find(b.specs, id);
      forall j :: 0 <= j < |b.specs| && j != i ==> b.specs[j].place != b.specs[i].place
  {
    PlacesWithout(b.specs, Find(b.specs, id));
  }

  function AfterAll(b: Books, calls: seq<Call>): Books
    decreases |calls|
  {
    if calls == [] then b else AfterAll(After(b, calls[0]), calls[1..])
  }

  lemma {:induction false} AfterSnoc(b: Books, calls: seq<Call>, c: Call)
    ensures AfterAll(b, calls + [c]) == After(AfterAll(b, calls), c)
    decreases |calls|
  {
    hide After;
    if calls == [] {
      assert [c][1..] == [];
    } else {
      assert (calls + [c])[1..] == calls[1..] + [c];
      AfterSnoc(After(b, calls[0]), calls[1..], c);
    }
  }

  /** No call of the run adds a spec at a place that is taken. */
  predicate NoSharing(b: Books, calls: seq<Call>)
    decreases |calls|
  {
    Distinct(b.specs) && (calls != [] ==> NoSharing(After(b, calls[0]), calls[1..]))
  }

  predicate NoneStrays(calls: seq<Call>) {
    forall i :: 0 <= i < |calls| ==> !Strays(calls[i])
  }

  /** The registry agrees with the stub after every call of the run. */
  predicate AgreesThroughout(b: Books, calls: seq<Call>)
    decreases |calls|
  {
    Agrees(b) && (calls != [] ==> AgreesThroughout(After(b, calls[0]), calls[1..]))
  }

  /** The call registers a place only if that is armed. */
  predicate Sound(b: Books, c: Call) { c.AddUnsure? && !c.done ==> c.place in b.armed }

  predicate AllSound(b: Books, calls: seq<Call>)
    decreases |calls|
  {
    calls != [] ==> Sound(b, calls[0]) && AllSound(After(b, calls[0]), calls[1..])
  }

  /** Over every run of calls in which no two live specs share a place, every registered spec is armed after
      every call if and only if no call registers a place that the stub has not armed; the two sets stay equal
      as long as no call strays, and ids ascend. */
  lemma {:induction false} RunAgrees(b: Books, calls: seq<Call>)
    requires WellNumbered(b.specs, b.nextId) && Agrees(b) && NoSharing(b, calls)
    ensures AgreesThroughout(b, calls) <==> AllSound(b, calls)
    ensures AllSound(b, calls) ==> Agrees(AfterAll(b, calls))
    ensures var e := AfterAll(b, calls); WellNumbered(e.specs, e.nextId) && b.nextId <= e.nextId
    ensures b.armed == Places(b.specs) && NoneStrays(calls) ==>
      AfterAll(b, calls).armed == Places(AfterAll(b, calls).specs)
    decreases |calls|
  {
    hide Agrees, Sound, WellNumbered, Distinct, After, Places, Strays;
    RunNumbered(b, calls);
    if calls == [] {
    } else {
      var b1 := After(b, calls[0]);
      StepAgrees(b, calls[0]);
      if Agrees(b1) {
        RunAgrees(b1, calls[1..]);
      }
      assert NoneStrays(calls) ==> NoneStrays(calls[1..]) && !Strays(calls[0]);
    }
  }

  lemma {:induction false} RunNumbered(b: Books, calls: seq<Call>)
    requires WellNumbered(b.specs, b.nextId)
    ensures var e := AfterAll(b, calls); WellNumbered(e.specs, e.nextId) && b.nextId <= e.nextId
    decreases |calls|
  {
    hide WellNumbered;
    if calls == [] {
    } else {
      var b1 := After(b, calls[0]);
      StepNumbered(b, calls[0]);
      RunNumbered(b1, calls[1..]);
    }
  }

  lemma StepNumbered(b: Books, c: Call)
    requires WellNumbered(b.specs, b.nextId)
    ensures WellNumbered(After(b, c).specs, After(b, c).nextId) && b.nextId <= After(b, c).nextId
  {
    if c.Removed? || c.RemoveRefused? || c.RemoveLost? {
      var i := Find(b.specs, c.id);
      if i < |b.specs| {
        WithoutNumbered(b.specs, i, b.nextId);
      }
    }
  }

  lemma StepAgrees(b: Books, c: Call)
    requires WellNumbered(b.specs, b.nextId) && Agrees(b) && Distinct(b.specs)
    ensures Agrees(After(b, c)) <==> Sound(b, c)
    ensures WellNumbered(After(b, c).specs, After(b, c).nextId)
    ensures b.armed == Places(b.specs) && !Strays(c) ==>
      Agrees(After(b, c)) && After(b, c).armed == Places(After(b, c).specs)
  {
    StepNumbered(b, c);
    hide WellNumbered;
    match c
    case Added(place) => PlacesAdded(b.specs, NewSpec(b.nextId, place));
    case AddUnsure(place, _) => PlacesAdded(b.specs, NewSpec(b.nextId, place));
    case AddRefused =>
    case AddLost(_, _) =>
    case Removed(id) =>
      hide Agrees, Distinct, Places, Without, Dropped;
      DroppedKeeps(b, id, true);
    case RemoveRefused(id) =>
      hide Agrees, Distinct, Places, Without, Dropped;
      DroppedKeeps(b, id, false);
    case RemoveLost(id, done) =>
      hide Agrees, Distinct, Places, Without, Dropped;
      DroppedKeeps(b, id, done);
  }

  /** When only the last call of a run may be in doubt, it decides: the registry agrees with the stub in the end
      if and only if that call is sound, as it is unless it is an addition on an unsure reply. */
  lemma {:induction false} LastDecides(b: Books, calls: seq<Call>)
    requires WellNumbered(b.specs, b.nextId) && Agrees(b) && NoSharing(b, calls) && calls != []
    requires forall i :: 0 <= i < |calls| - 1 ==> calls[i].Answered()
    ensures Agrees(AfterAll(b, calls)) <==> Sound(AfterAll(b, calls[..|calls| - 1]), calls[|calls| - 1])
    ensures !calls[|calls| - 1].AddUnsure? ==> Agrees(AfterAll(b, calls))
    decreases |calls|
  {
    hide Agrees, WellNumbered, Distinct, After;
    var b1, rest := After(b, calls[0]), calls[1..];
    StepAgrees(b, calls[0]);
    if rest == [] {
      assert AfterAll(b1, []) == b1;
    } else {
      assert calls[..|calls| - 1][1..] == rest[..|rest| - 1];
      LastDecides(b1, rest);
    }
  }

  lemma DroppedKeeps(b: Books, id: nat, done: bool)
    requires Agrees(b) && Distinct(b.specs)
    ensures Agrees(Dropped(b, id, done))
    ensures b.armed == Places(b.specs) && done ==> Dropped(b, id, done).armed == Places(Dropped(b, id, done).specs)
  {
    hide Without, Places;
    var i := Find(b.specs, id);
    if i < |b.specs| {
      PlacesWithout(b.specs, i);
    }
  }

  /** An id in the registry after a call was there before, or is the one just given out. */
  lemma StepIds(b: Books, c: Call, id: nat)
    requires Find(After(b, c).specs, id) < |After(b, c).specs|
    ensures (id == b.nextId && (c.Added? || c.AddUnsure?)) || Find(b.specs, id) < |b.specs|
  {
  }

  /** An id that has been removed, or was never given out, never comes back: whatever is registered
      after a run was registered before it or got a fresh id. */
  lemma {:induction false} IdsNeverReused(b: Books, calls: seq<Call>, id: nat)
    requires Find(AfterAll(b, calls).specs, id) < |AfterAll(b, calls).specs|
    ensures id >= b.nextId || Find(b.specs, id) < |b.specs|
    decreases |calls|
  {
    if calls == [] {
    } else {
      IdsNeverReused(After(b, calls[0]), calls[1..], id);
      if Find(After(b, calls[0]).specs, id) < |After(b, calls[0]).specs| {
        StepIds(b, calls[0], id);
      }
    }
  }
}
