/**
  Exactly when a rebuild of the subscriber index leaves a subscriber right. IndexRuns shows that a
  sheltered subscriber ends up right; here, one that is not sheltered has a defect that some way of
  finishing the rebuild carries to the end, so sheltering is the exact condition.
 */
module RebuildExact {
  import opened Basics
  import opened Store
  import opened IndexRuns

  // ---------- Defects ----------

  /** How a subscriber's index can come out wrong: a device too many or too few in a type set, or in the subscriber index. */
  datatype Defect = Extra(dp: Name, k: TypeKey) | Lacking(dp: Name) | Unlisted | Spurious

  ghost predicate ExtraAhead(phase: Phase, db: Db, y: Sub, dp: Name, k: TypeKey) {
    match phase
    case Walking(_, _, visit, _) => dp in Members(db.stagedTyped, k) || (dp in Hand(visit, y) && k == KeyOf(dp))
    case DroppingServices(_, _, _) => dp in Members(db.stagedTyped, k)
    case DroppingTypes(owed, todo, staged) =>
      || dp in Members(db.stagedTyped, k)
      || (dp in Members(db.typed, k) && k !in staged.types && k !in owed.types && k !in todo.types)
    case Publishing(left) => dp in Members(if k in left.types then db.stagedTyped else db.typed, k)
    case _ => false
  }

  ghost predicate LackingAhead(phase: Phase, db: Db, y: Sub, dp: Name) {
    var k := KeyOf(dp);
    match phase
    case Walking(owed, todo, visit, _) => !Staged(db, dp) && dp !in Hand(visit, y) && y !in owed && y !in todo
    case DroppingServices(_, _, _) => !Staged(db, dp)
    case DroppingTypes(owed, todo, staged) =>
      !Staged(db, dp) && (k in staged.types || dp !in Members(db.typed, k) || k in owed.types || k in todo.types)
    case Publishing(left) => dp !in Members(if k in left.types then db.stagedTyped else db.typed, k)
    case _ => false
  }

  predicate Live(db: Db, y: Sub) {
    y.name in Members(db.subscribers, y.service)
  }

  ghost predicate UnlistedAhead(phase: Phase, db: Db, y: Sub) {
    match phase
    case Walking(owed, todo, visit, _) => !Listed(db, y) && Hand(visit, y) == {} && y !in owed && y !in todo
    case DroppingServices(owed, todo, staged) =>
      !Listed(db, y) && (y.service in staged.services || !Live(db, y) || y.service in owed.services || y.service in todo.services)
    case DroppingTypes(_, _, staged) => if y.service in staged.services then !Listed(db, y) else !Live(db, y)
    case Publishing(left) => if y.service in left.services then !Listed(db, y) else !Live(db, y)
    case _ => false
  }

  ghost predicate SpuriousAhead(phase: Phase, db: Db, y: Sub) {
    match phase
    case Walking(_, _, _, _) => Listed(db, y)
    case DroppingServices(owed, todo, staged) =>
      || Listed(db, y)
      || (Live(db, y) && y.service !in staged.services && y.service !in owed.services && y.service !in todo.services)
    case DroppingTypes(_, _, staged) => if y.service in staged.services then Listed(db, y) else Live(db, y)
    case Publishing(left) => if y.service in left.services then Listed(db, y) else Live(db, y)
    case _ => false
  }

  /** The rebuild, if it goes on and scans no more than it has to, ends with the defect. */
  ghost predicate Doomed(phase: Phase, db: Db, y: Sub, defect: Defect) {
    match defect
    case Extra(dp, k) => Owner(dp) == y && !BelongsIn(db, dp, k) && ExtraAhead(phase, db, y, dp, k)
    case Lacking(dp) => Owner(dp) == y && dp in Members(db.devices, y) && LackingAhead(phase, db, y, dp)
    case Unlisted => Members(db.devices, y) != {} && UnlistedAhead(phase, db, y)
    case Spurious => Members(db.devices, y) == {} && SpuriousAhead(phase, db, y)
  }

  lemma DoomedEndsWrong(db: Db, y: Sub, defect: Defect)
    requires Doomed(Publishing(NO_KEYS), db, y, defect)
    ensures !IndexedRight(db, y)
  {
    match defect
    case Extra(dp, k) => assert !DeviceRight(db, dp, k);
    case Lacking(dp) => assert !DeviceRight(db, dp, KeyOf(dp));
    case _ => assert !SubscriberRight(db, y);
  }

  // ---------- Finding the defect ----------

  lemma WalkDefect(phase: Phase, db: Db, y: Sub) returns (defect: Defect)
    requires phase.Walking? && WellFormed(db) && Shape(phase, db) && !Sheltered(phase, db, y)
    ensures Doomed(phase, db, y, defect)
  {
    if !StagedSound(db, y) {
      if Listed(db, y) && Members(db.devices, y) == {} {
        return Spurious;
      }
      var dp, k :| Owner(dp) == y && dp in Members(db.stagedTyped, k) && !BelongsIn(db, dp, k);
      return Extra(dp, k);
    }
    if !(Hand(phase.visit, y) <= Members(db.devices, y)) {
      var dp :| dp in Hand(phase.visit, y) && dp !in Members(db.devices, y);
      return Extra(dp, KeyOf(dp));
    }
    if !Listed(db, y) && Hand(phase.visit, y) == {} {
      return Unlisted;
    }
    var dp :| dp in Members(db.devices, y) && !Staged(db, dp) && dp !in Hand(phase.visit, y);
    assert Owner(dp) == y;
    return Lacking(dp);
  }

  /** A defect of the staged type sets. */
  lemma StagedDefect(db: Db, y: Sub, dp: Name, k: TypeKey) returns (defect: Defect)
    requires Owner(dp) == y && !StagedDeviceRight(db, dp, k)
    ensures defect == if dp in Members(db.stagedTyped, k) then Extra(dp, k) else Lacking(dp)
    ensures defect.Extra? ==> !BelongsIn(db, dp, k)
    ensures defect.Lacking? ==> dp in Members(db.devices, y) && !Staged(db, dp)
  {
    defect := if dp in Members(db.stagedTyped, k) then Extra(dp, k) else Lacking(dp);
  }

  /** While live subscriber indexes are dropped, the scan may have to return one key more. */
  lemma DropServicesDefect(w: World, y: Sub) returns (page: set<string>, defect: Defect)
    requires w.phase.DroppingServices? && Shape(w.phase, w.db) && !Sheltered(w.phase, w.db, y)
    ensures Doomed(TakePage(w.phase, page, {}, {}), w.db, y, defect)
  {
    page := {};
    if !StagedSubscriberRight(w.db, y) {
      if Listed(w.db, y) {
        return {}, Spurious;
      }
      return {y.service}, Unlisted;
    }
    if dp, k :| Owner(dp) == y && !StagedDeviceRight(w.db, dp, k) {
      defect := StagedDefect(w.db, y, dp, k);
      return;
    }
    return {}, Spurious;
  }

  /** The same for the type sets. */
  lemma DropTypesDefect(w: World, y: Sub) returns (page: set<TypeKey>, defect: Defect)
    requires w.phase.DroppingTypes? && Shape(w.phase, w.db) && !Sheltered(w.phase, w.db, y)
    ensures Doomed(TakePage(w.phase, {}, page, {}), w.db, y, defect)
  {
    page := {};
    if dp, k :| Owner(dp) == y && !StagedDeviceRight(w.db, dp, k) {
      defect := StagedDefect(w.db, y, dp, k);
      page := {k};
      if defect.Extra? {
        page := {};
      }
      return;
    }
    var inStaged := y.service in w.phase.staged.services;
    if !(if inStaged then StagedSubscriberRight(w.db, y) else SubscriberRight(w.db, y)) {
      defect := if Members(w.db.devices, y) == {} then Spurious else Unlisted;
      return;
    }
    var dp, k :| Owner(dp) == y && dp in Members(w.db.typed, k) && k !in w.phase.staged.types
                 && k !in w.phase.owed.types && k !in w.phase.todo.types;
    assert StagedDeviceRight(w.db, dp, k);
    return {}, Extra(dp, k);
  }

  lemma PublishDefect(left: Keys, db: Db, y: Sub) returns (defect: Defect)
    requires WellFormed(db) && !Sheltered(Publishing(left), db, y)
    ensures Doomed(Publishing(left), db, y, defect)
  {
    if !(if y.service in left.services then StagedSubscriberRight(db, y) else SubscriberRight(db, y)) {
      return if Members(db.devices, y) == {} then Spurious else Unlisted;
    }
    var dp, k :| Owner(dp) == y && !(if k in left.types then StagedDeviceRight(db, dp, k) else DeviceRight(db, dp, k));
    return if BelongsIn(db, dp, k) then Lacking(dp) else Extra(dp, k);
  }

  // ---------- Carrying it to the end ----------

  /** How much of the rebuild is left, the scan owing its least. */
  function Stage(phase: Phase): nat {
    match phase
    case Idle => 0
    case Publishing(_) => 1
    case DroppingTypes(_, _, _) => 2
    case DroppingServices(_, _, _) => 3
    case Walking(_, _, _, _) => 4
    case Clearing(_, _) => 5
  }

  function Owed(phase: Phase): nat {
    match phase
    case Walking(owed, _, _, _) => |owed|
    case DroppingServices(owed, _, _) => |owed.services|
    case DroppingTypes(owed, _, _) => |owed.types|
    case Publishing(left) => |left.services|
    case _ => 0
  }

  function Todo(phase: Phase): nat {
    match phase
    case Walking(_, todo, _, _) => |todo|
    case DroppingServices(_, todo, _) => |todo.services|
    case DroppingTypes(_, todo, _) => |todo.types|
    case Publishing(left) => |left.types|
    case _ => 0
  }

  function Visiting(phase: Phase): nat {
    if phase.Walking? && phase.visit.Some? then 1 + |phase.visit.value.left| else 0
  }

  predicate Nearer(a: Phase, b: Phase) {
    || Stage(a) < Stage(b)
    || (Stage(a) == Stage(b) && Owed(a) < Owed(b))
    || (Stage(a) == Stage(b) && Owed(a) == Owed(b) && Todo(a) < Todo(b))
    || (Stage(a) == Stage(b) && Owed(a) == Owed(b) && Todo(a) == Todo(b) && Visiting(a) < Visiting(b))
  }

  /** From w the rebuild can go to w' keeping the defect ahead. */
  ghost predicate Carries(w: World, w': World, y: Sub, defect: Defect) {
    Doomed(w'.phase, w'.db, y, defect) && Nearer(w'.phase, w.phase)
  }

  /** Staging a type writes what is in hand and nothing else. */
  lemma StageTypeWrites(w: World, t: string, y: Sub, dp: Name, k: TypeKey)
    requires w.phase.Walking? && w.phase.visit.Some? && t in w.phase.visit.value.left && Shape(w.phase, w.db) && Owner(dp) == y
    ensures var w' := StageTypeIn(w, t);
            && (dp in Members(w.db.stagedTyped, k) ==> dp in Members(w'.db.stagedTyped, k))
            && (dp in Members(w'.db.stagedTyped, k) ==> dp in Members(w.db.stagedTyped, k) || dp in Hand(w.phase.visit, y))
            && Hand(w'.phase.visit, y) == Hand(w.phase.visit, y)
  {
  }

  lemma StageTypeNears(phase: Phase, t: string, staged: Keys)
    requires phase.Walking? && phase.visit.Some? && t in phase.visit.value.left
    ensures Nearer(phase.(visit := Some(phase.visit.value.(left := phase.visit.value.left - {t})), staged := staged), phase)
  {
    assert |phase.visit.value.left - {t}| == |phase.visit.value.left| - 1;
  }

  lemma StageTypeDooms(w: World, t: string, y: Sub, defect: Defect)
    requires w.phase.Walking? && w.phase.visit.Some? && t in w.phase.visit.value.left
    requires Shape(w.phase, w.db) && Doomed(w.phase, w.db, y, defect)
    ensures Doomed(StageTypeIn(w, t).phase, StageTypeIn(w, t).db, y, defect)
  {
    match defect
    case Extra(dp, k) => StageTypeWrites(w, t, y, dp, k);
    case Lacking(dp) => StageTypeWrites(w, t, y, dp, KeyOf(dp));
    case _ =>
  }

  lemma StageTypeCarries(w: World, t: string, y: Sub, defect: Defect)
    requires w.phase.Walking? && w.phase.visit.Some? && t in w.phase.visit.value.left
    requires Shape(w.phase, w.db) && Doomed(w.phase, w.db, y, defect)
    ensures Carries(w, Apply(w, StageType(t)), y, defect)
  {
    var w' := StageTypeIn(w, t);
    assert Apply(w, StageType(t)) == w';
    assert Doomed(w'.phase, w'.db, y, defect) by {
      StageTypeDooms(w, t, y, defect);
    }
    assert Nearer(w'.phase, w.phase) by {
      StageTypeNears(w.phase, t, w'.phase.staged);
    }
  }

  lemma StageSubscriberCarries(w: World, y: Sub, defect: Defect)
    requires w.phase.Walking? && w.phase.visit.Some? && w.phase.visit.value.left == {}
    requires Shape(w.phase, w.db) && Doomed(w.phase, w.db, y, defect)
    ensures Carries(w, Apply(w, StageSubscriber), y, defect)
  {
    var x, w' := w.phase.visit.value.x, StageSubscriberIn(w);
    assert Listed(w'.db, y) <==> Listed(w.db, y) || y == x;
    assert w'.db.stagedTyped == w.db.stagedTyped && w'.db.devices == w.db.devices;
  }

  lemma ReadCarries(w: World, x: Sub, y: Sub, defect: Defect)
    requires w.phase.Walking? && w.phase.visit.None? && x in w.phase.todoSubs && Doomed(w.phase, w.db, y, defect)
    ensures Carries(w, Apply(w, ReadSubscriber(x)), y, defect)
  {
    assert |w.phase.todoSubs - {x}| == |w.phase.todoSubs| - 1;
  }

  /** The scan's last page: everything it owes. */
  function LastPage(phase: Phase): Step {
    match phase
    case Walking(owed, _, _, _) => Page({}, {}, owed)
    case DroppingServices(owed, _, _) => Page(owed.services, {}, {})
    case DroppingTypes(owed, _, _) => Page({}, owed.types, {})
    case _ => Page({}, {}, {})
  }

  lemma LastPageCarries(w: World, y: Sub, defect: Defect)
    requires Owed(w.phase) > 0 && (w.phase.Walking? || w.phase.DroppingServices? || w.phase.DroppingTypes?)
    requires Doomed(w.phase, w.db, y, defect)
    ensures Carries(w, Apply(w, LastPage(w.phase)), y, defect)
  {
  }

  lemma DropServiceCarries(w: World, s: string, y: Sub, defect: Defect)
    requires w.phase.DroppingServices? && s in w.phase.todo.services && w.phase.owed.services == {}
    requires Shape(w.phase, w.db) && Doomed(w.phase, w.db, y, defect)
    ensures Carries(w, Apply(w, HandleService(s)), y, defect)
  {
    assert |w.phase.todo.services - {s}| == |w.phase.todo.services| - 1;
  }

  lemma DropTypeCarries(w: World, k: TypeKey, y: Sub, defect: Defect)
    requires w.phase.DroppingTypes? && k in w.phase.todo.types && w.phase.owed.types == {}
    requires Shape(w.phase, w.db) && Doomed(w.phase, w.db, y, defect)
    ensures Carries(w, Apply(w, HandleType(k)), y, defect)
  {
    assert |w.phase.todo.types - {k}| == |w.phase.todo.types| - 1;
  }

  lemma RenameServiceCarries(w: World, s: string, y: Sub, defect: Defect)
    requires w.phase.Publishing? && s in w.phase.left.services && Shape(w.phase, w.db) && Doomed(w.phase, w.db, y, defect)
    ensures Carries(w, Apply(w, HandleService(s)), y, defect)
  {
    assert |w.phase.left.services - {s}| == |w.phase.left.services| - 1;
  }

  lemma RenameTypeCarries(w: World, k: TypeKey, y: Sub, defect: Defect)
    requires w.phase.Publishing? && k in w.phase.left.types && Shape(w.phase, w.db) && Doomed(w.phase, w.db, y, defect)
    ensures Carries(w, Apply(w, HandleType(k)), y, defect)
  {
    assert |w.phase.left.types - {k}| == |w.phase.left.types| - 1;
  }

  /** The scan is over and what it returned is handled. */
  predicate ScanDone(phase: Phase) {
    match phase
    case Walking(owed, todo, visit, _) => owed == {} && todo == {} && visit == None
    case DroppingServices(owed, todo, _) => owed.services == {} && todo.services == {}
    case DroppingTypes(owed, todo, _) => owed.types == {} && todo.types == {}
    case _ => false
  }

  lemma ProceedCarries(w: World, y: Sub, defect: Defect)
    requires ScanDone(w.phase) && Shape(w.phase, w.db) && Doomed(w.phase, w.db, y, defect)
    ensures Carries(w, Apply(w, Proceed), y, defect)
  {
  }

  // ---------- Finishing the rebuild ----------

  predicate OfRebuild(step: Step) {
    !IsScript(step) && !step.GiveUp?
  }

  /** The step takes the rebuild on, returning no more of the scan than it owes. */
  predicate TakesOn(phase: Phase, step: Step) {
    match step
    case StageType(t) => phase.Walking? && phase.visit.Some? && t in phase.visit.value.left
    case StageSubscriber => phase.Walking? && phase.visit.Some? && phase.visit.value.left == {}
    case ReadSubscriber(x) => phase.Walking? && phase.visit.None? && x in phase.todoSubs
    case Page(_, _, _) =>
      Owed(phase) > 0 && step == LastPage(phase) && (phase.Walking? || phase.DroppingServices? || phase.DroppingTypes?)
    case HandleService(s) =>
      || (phase.DroppingServices? && s in phase.todo.services && phase.owed.services == {})
      || (phase.Publishing? && s in phase.left.services)
    case HandleType(k) =>
      || (phase.DroppingTypes? && k in phase.todo.types && phase.owed.types == {})
      || (phase.Publishing? && k in phase.left.types)
    case Proceed => ScanDone(phase)
    case _ => false
  }

  lemma SomethingTakesOn(phase: Phase) returns (step: Step)
    requires !phase.Idle? && !phase.Clearing? && phase != Publishing(NO_KEYS)
    ensures TakesOn(phase, step)
  {
    match phase
    case Walking(owed, todo, visit, _) =>
      if visit.Some? && visit.value.left != {} {
        var t :| t in visit.value.left;
        return StageType(t);
      } else if visit.Some? {
        return StageSubscriber;
      } else if todo != {} {
        var x :| x in todo;
        return ReadSubscriber(x);
      }
      return if owed != {} then LastPage(phase) else Proceed;
    case DroppingServices(owed, todo, _) =>
      if owed.services == {} && todo.services != {} {
        var s :| s in todo.services;
        return HandleService(s);
      }
      return if owed.services != {} then LastPage(phase) else Proceed;
    case DroppingTypes(owed, todo, _) =>
      if owed.types == {} && todo.types != {} {
        var k :| k in todo.types;
        return HandleType(k);
      }
      return if owed.types != {} then LastPage(phase) else Proceed;
    case Publishing(left) =>
      if left.services != {} {
        var s :| s in left.services;
        return HandleService(s);
      }
      var k :| k in left.types;
      return HandleType(k);
  }

  lemma TakesOnCarries(w: World, step: Step, y: Sub, defect: Defect)
    requires TakesOn(w.phase, step) && Shape(w.phase, w.db) && Doomed(w.phase, w.db, y, defect)
    ensures OfRebuild(step) && Carries(w, Apply(w, step), y, defect)
  {
    match step
    case StageType(t) => StageTypeCarries(w, t, y, defect);
    case StageSubscriber => StageSubscriberCarries(w, y, defect);
    case ReadSubscriber(x) => ReadCarries(w, x, y, defect);
    case Page(_, _, _) => LastPageCarries(w, y, defect);
    case HandleService(s) =>
      if w.phase.Publishing? { RenameServiceCarries(w, s, y, defect); } else { DropServiceCarries(w, s, y, defect); }
    case HandleType(k) =>
      if w.phase.Publishing? { RenameTypeCarries(w, k, y, defect); } else { DropTypeCarries(w, k, y, defect); }
    case Proceed => ProceedCarries(w, y, defect);
  }

  /** Nothing but the rebuild itself. */
  ghost predicate RebuildOnly(steps: seq<Step>) {
    forall i :: 0 <= i < |steps| ==> OfRebuild(steps[i])
  }

  lemma ReachedOne(db: Db, steps: seq<Step>, step: Step)
    ensures Reached(db, steps + [step]) == Apply(Reached(db, steps), step)
  {
    assert (steps + [step])[..|steps|] == steps;
  }

  lemma ShapeHolds(db: Db, steps: seq<Step>)
    requires WellFormed(db)
    ensures WellFormed(Reached(db, steps).db) && Shape(Reached(db, steps).phase, Reached(db, steps).db)
  {
    RunKeepsInv(db, steps);
  }

  lemma FinishOne(db: Db, steps: seq<Step>, w: World, y: Sub, defect: Defect) returns (step: Step, w': World)
    requires WellFormed(db) && w == Reached(db, steps) && w.phase != Publishing(NO_KEYS) && Doomed(w.phase, w.db, y, defect)
    ensures OfRebuild(step) && w' == Reached(db, steps + [step]) && Carries(w, w', y, defect)
  {
    ShapeHolds(db, steps);
    step := SomethingTakesOn(w.phase);
    TakesOnCarries(w, step, y, defect);
    w' := Apply(w, step);
    ReachedOne(db, steps, step);
  }

  /** The rebuild, going on by itself, finishes with y wrong. */
  ghost predicate Loses(db: Db, steps: seq<Step>, more: seq<Step>, y: Sub) {
    && RebuildOnly(more)
    && Reached(db, steps + more).phase == Publishing(NO_KEYS)
    && !IndexedRight(Reached(db, steps + more).db, y)
  }

  lemma LosesLater(db: Db, steps: seq<Step>, step: Step, rest: seq<Step>, y: Sub)
    requires OfRebuild(step) && Loses(db, steps + [step], rest, y)
    ensures Loses(db, steps, [step] + rest, y)
  {
    assert steps + [step] + rest == steps + ([step] + rest);
  }

  lemma LosesNow(db: Db, steps: seq<Step>, y: Sub, defect: Defect)
    requires Reached(db, steps).phase == Publishing(NO_KEYS) && Doomed(Publishing(NO_KEYS), Reached(db, steps).db, y, defect)
    ensures Loses(db, steps, [], y)
  {
    DoomedEndsWrong(Reached(db, steps).db, y, defect);
    assert steps + [] == steps;
  }

  lemma {:induction false} Finish(db: Db, steps: seq<Step>, w: World, y: Sub, defect: Defect) returns (more: seq<Step>)
    requires WellFormed(db) && w == Reached(db, steps) && Doomed(w.phase, w.db, y, defect)
    ensures Loses(db, steps, more, y)
    decreases Stage(w.phase), Owed(w.phase), Todo(w.phase), Visiting(w.phase)
  {
    if w.phase == Publishing(NO_KEYS) {
      LosesNow(db, steps, y, defect);
      more := [];
    } else {
      var step, w' := FinishOne(db, steps, w, y, defect);
      var rest := Finish(db, steps + [step], w', y, defect);
      LosesLater(db, steps, step, rest, y);
      more := [step] + rest;
    }
  }

  /** A subscriber that is not sheltered is lost if the rebuild goes on in some way open to it. */
  lemma UnshelteredCanLose(db: Db, steps: seq<Step>, y: Sub) returns (more: seq<Step>)
    requires WellFormed(db) && !Sheltered(Reached(db, steps).phase, Reached(db, steps).db, y)
    ensures Loses(db, steps, more, y)
  {
    var w := Reached(db, steps);
    ShapeHolds(db, steps);
    var page, defect := Expose(w, y);
    ReachedOne(db, steps, page);
    var rest := Finish(db, steps + [page], Apply(w, page), y, defect);
    LosesLater(db, steps, page, rest, y);
    more := [page] + rest;
  }

  lemma Expose(w: World, y: Sub) returns (page: Step, defect: Defect)
    requires WellFormed(w.db) && Shape(w.phase, w.db) && !Sheltered(w.phase, w.db, y)
    ensures OfRebuild(page) && Doomed(Apply(w, page).phase, Apply(w, page).db, y, defect)
  {
    page := Page({}, {}, {});
    match w.phase
    case Walking(owed, todo, visit, staged) =>
      defect := WalkDefect(w.phase, w.db, y);
      assert TakePage(w.phase, {}, {}, {}) == w.phase;
    case DroppingServices(_, _, _) =>
      var keys: set<string>;
      keys, defect := DropServicesDefect(w, y);
      page := Page(keys, {}, {});
    case DroppingTypes(_, _, _) =>
      var keys: set<TypeKey>;
      keys, defect := DropTypesDefect(w, y);
      page := Page({}, keys, {});
    case Publishing(left) => defect := PublishDefect(left, w.db, y);
  }

  // ---------- The exact conditions ----------

  /** No script in the steps names y. */
  ghost predicate Leaves(steps: seq<Step>, y: Sub) {
    forall i :: 0 <= i < |steps| && IsScript(steps[i]) ==> Named(steps[i]) != y
  }

  /** However the run goes on, if no script names y then the next rebuild to finish has it right. */
  ghost predicate EndsRight(db: Db, steps: seq<Step>, y: Sub) {
    forall more :: Leaves(more, y) && Reached(db, steps + more).phase == Publishing(NO_KEYS) ==>
      IndexedRight(Reached(db, steps + more).db, y)
  }

  lemma {:induction false} ShelterLasts(db: Db, steps: seq<Step>, more: seq<Step>, y: Sub)
    requires WellFormed(db) && Sheltered(Reached(db, steps).phase, Reached(db, steps).db, y) && Leaves(more, y)
    ensures Sheltered(Reached(db, steps + more).phase, Reached(db, steps + more).db, y)
  {
    if more == [] {
      assert steps + more == steps;
    } else {
      var init, last := more[..|more| - 1], more[|more| - 1];
      ShelterLasts(db, steps, init, y);
      ShapeHolds(db, steps + init);
      StepKeepsShelter(Reached(db, steps + init), last, y);
      ReachedOne(db, steps + init, last);
      assert steps + init + [last] == steps + more;
    }
  }

  lemma ShelteredAtTheEndIsRight(db: Db, y: Sub)
    requires Sheltered(Publishing(NO_KEYS), db, y)
    ensures IndexedRight(db, y)
  {
    forall dp, k | Owner(dp) == y ensures DeviceRight(db, dp, k) {
      assert k !in NO_KEYS.types;
    }
  }

  /** At any moment of any run: y is sure to come out right if and only if it is sheltered. */
  lemma ShelterIsExact(db: Db, steps: seq<Step>, y: Sub)
    requires WellFormed(db)
    ensures EndsRight(db, steps, y) <==> Sheltered(Reached(db, steps).phase, Reached(db, steps).db, y)
  {
    if Sheltered(Reached(db, steps).phase, Reached(db, steps).db, y) {
      forall more | Leaves(more, y) && Reached(db, steps + more).phase == Publishing(NO_KEYS)
        ensures IndexedRight(Reached(db, steps + more).db, y)
      {
        ShelterLasts(db, steps, more, y);
        ShelteredAtTheEndIsRight(Reached(db, steps + more).db, y);
      }
    } else {
      var more := UnshelteredCanLose(db, steps, y);
      assert Leaves(more, y);
    }
  }

  /**
    A script on a subscriber the rebuild would have left right: the subscriber is still sure to come
    out right if and only if the script changed nothing of its devices or came inside the window.
   */
  lemma WindowIsExact(db: Db, steps: seq<Step>, step: Step)
    requires WellFormed(db) && IsScript(step)
    requires EndsRight(db, steps, Named(step))
    ensures EndsRight(db, steps + [step], Named(step)) <==> Harmless(Reached(db, steps), step)
  {
    var w, y := Reached(db, steps), Named(step);
    ShapeHolds(db, steps);
    ShelterIsExact(db, steps, y);
    ShelterIsExact(db, steps + [step], y);
    ReachedOne(db, steps, step);
    HarmlessIsExact(w, step);
  }
}
