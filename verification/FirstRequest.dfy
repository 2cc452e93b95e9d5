// The check run on the first request, as an interleaved transition system.
module FirstRequest {
  import opened ToolPipeline
  import opened Wrappers

  // Any number of requests take turns, one atomic step at a time, through a
  // double-checked lock. Where one is in the routine, and what its own check has found:
  datatype Pc =
    | Arrived                                      // before the unlocked test
    | Waiting                                      // saw "not verified"; wants the lock
    | Entered                                      // holds the lock; before the second test
    | Checking                                     // asking the database
    | Found(found: Capabilities)                   // the check passed; nothing written yet
    | GdsWritten(found: Capabilities)
    | SearchWritten(found: Capabilities)
    | FlagsWritten(found: Capabilities)
    | Adding(found: Capabilities, tools: seq<Tool>, next: nat)
    | Registered(found: Capabilities)
    | Emitted(found: Capabilities)
    | Leaving                                      // about to unlock
    | Finished

  type Id = nat

  datatype State = State(
    verified: bool, caps: Capabilities, registry: map<string, Tool>, emitted: nat, lock: Option<Id>, at: map<Id, Pc>)

  // After start-up registration, with no capability known.
  predicate Init(cfg: Config, s: State) {
    s == State(false, NONE, Served(cfg, NONE), 0, None, map[])
  }

  function Move(s: State, r: Id, pc: Pc): State {
    s.(at := s.at[r := pc])
  }

  datatype Step =
    | Arrive(id: Id)
    | TestUnlocked(id: Id)
    | Lock(id: Id)
    | TestLocked(id: Id)
    | CheckFails(id: Id)
    | CheckPasses(id: Id, result: Capabilities)
    | WriteGds(id: Id)
    | WriteSearch(id: Id)
    | WriteCypher25(id: Id)
    | Pipeline(id: Id)
    | AddOne(id: Id)
    | Emit(id: Id)
    | Store(id: Id)
    | Unlock(id: Id)

  predicate Can(s: State, step: Step) {
    if step.Arrive? then step.id !in s.at
    else
      && step.id in s.at
      && match step
         case TestUnlocked(r) => s.at[r] == Arrived
         case Lock(r) => s.at[r] == Waiting && s.lock == None
         case TestLocked(r) => s.at[r] == Entered
         case CheckFails(r) => s.at[r] == Checking
         case CheckPasses(r, _) => s.at[r] == Checking
         case WriteGds(r) => s.at[r].Found?
         case WriteSearch(r) => s.at[r].GdsWritten?
         case WriteCypher25(r) => s.at[r].SearchWritten?
         case Pipeline(r) => s.at[r].FlagsWritten?
         case AddOne(r) => s.at[r].Adding?
         case Emit(r) => s.at[r].Registered?
         case Store(r) => s.at[r].Emitted?
         case Unlock(r) => s.at[r] == Leaving
  }

  // What a step does. The tools are computed from the flags the server holds, and
  // added one at a time.
  function Take(cfg: Config, s: State, step: Step): State
    requires Can(s, step)
  {
    match step
    case Arrive(r) => Move(s, r, Arrived)
    case TestUnlocked(r) => Move(s, r, if s.verified then Finished else Waiting)
    case Lock(r) => Move(s, r, Entered).(lock := Some(r))
    case TestLocked(r) => Move(s, r, if s.verified then Leaving else Checking)
    case CheckFails(r) => Move(s, r, Leaving)
    case CheckPasses(r, result) => Move(s, r, Found(result))
    case WriteGds(r) => Move(s, r, GdsWritten(s.at[r].found)).(caps := s.caps.(gds := s.at[r].found.gds))
    case WriteSearch(r) => Move(s, r, SearchWritten(s.at[r].found)).(caps := s.caps.(search := s.at[r].found.search))
    case WriteCypher25(r) => Move(s, r, FlagsWritten(s.at[r].found)).(caps := s.caps.(cypher25 := s.at[r].found.cypher25))
    case Pipeline(r) =>
      if s.caps.gds || s.caps.search || s.caps.cypher25 then Move(s, r, Adding(s.at[r].found, Enabled(cfg, s.caps), 0))
      else Move(s, r, Registered(s.at[r].found))
    case AddOne(r) =>
      var a := s.at[r];
      if a.next < |a.tools| then
        Move(s, r, Adding(a.found, a.tools, a.next + 1)).(registry := s.registry[a.tools[a.next].name := a.tools[a.next]])
      else Move(s, r, Registered(a.found))
    case Emit(r) => Move(s, r, Emitted(s.at[r].found)).(emitted := s.emitted + 1)
    case Store(r) => Move(s, r, Leaving).(verified := true)
    case Unlock(r) => Move(s, r, Finished).(lock := None)
  }

  // ---------------------------------------------------------------- the invariant

  predicate Outside(pc: Pc) {
    pc == Arrived || pc == Waiting || pc == Finished
  }

  // What the shared state looks like while a request holding the lock is at `pc`.
  ghost predicate Shared(cfg: Config, s: State, pc: Pc) {
    match pc
    case Checking => Untouched(cfg, s)
    case Found(_) => Untouched(cfg, s)
    case GdsWritten(c) => !s.verified && s.emitted == 0 && s.registry == Served(cfg, NONE) && s.caps == NONE.(gds := c.gds)
    case SearchWritten(c) => !s.verified && s.emitted == 0 && s.registry == Served(cfg, NONE) && s.caps == c.(cypher25 := false)
    case FlagsWritten(c) => !s.verified && s.emitted == 0 && s.registry == Served(cfg, NONE) && s.caps == c
    case Adding(c, tools, next) =>
      && !s.verified && s.emitted == 0 && s.caps == c && tools == Enabled(cfg, c) && next <= |tools|
      && s.registry == AddAll(Served(cfg, NONE), tools[..next])
    case Registered(c) => !s.verified && s.emitted == 0 && s.caps == c && s.registry == Served(cfg, c)
    case Emitted(c) => !s.verified && s.emitted == 1 && s.caps == c && s.registry == Served(cfg, c)
    case _ => AtRest(cfg, s)
  }

  ghost predicate Untouched(cfg: Config, s: State) {
    !s.verified && s.emitted == 0 && s.caps == NONE && s.registry == Served(cfg, NONE)
  }

  ghost predicate AllDone(cfg: Config, s: State) {
    s.verified && s.emitted == 1 && s.registry == Served(cfg, s.caps)
  }

  ghost predicate AtRest(cfg: Config, s: State) {
    Untouched(cfg, s) || AllDone(cfg, s)
  }

  ghost predicate Inv(cfg: Config, s: State) {
    && (forall r :: r in s.at && !Outside(s.at[r]) ==> s.lock == Some(r))
    && match s.lock
       case None => AtRest(cfg, s)
       case Some(h) => h in s.at && !Outside(s.at[h]) && Shared(cfg, s, s.at[h])
  }

  lemma AddAllStep(tools: map<string, Tool>, defs: seq<Tool>, next: nat)
    requires next < |defs|
    ensures AddAll(tools, defs[..next + 1]) == AddAll(tools, defs[..next])[defs[next].name := defs[next]]
  {
    assert defs[..next + 1][..next] == defs[..next];
  }

  lemma AddNothing(tools: map<string, Tool>, defs: seq<Tool>)
    ensures AddAll(tools, defs[..0]) == tools
  {
  }

  // A request that is not in the critical section changes nothing shared but the
  // free lock.
  lemma OutsideStepKeepsInv(cfg: Config, s: State, step: Step)
    requires Inv(cfg, s) && Can(s, step) && (step.Arrive? || step.TestUnlocked? || step.Lock?)
    ensures Inv(cfg, Take(cfg, s, step))
  {
    hide Served, Enabled, AddAll;
  }

  // The steps up to the last flag written.
  predicate IsCheckStep(step: Step) {
    step.TestLocked? || step.CheckFails? || step.CheckPasses? || step.WriteGds? || step.WriteSearch? || step.WriteCypher25?
  }

  lemma CheckStepKeepsInv(cfg: Config, s: State, step: Step)
    requires Inv(cfg, s) && Can(s, step) && IsCheckStep(step)
    ensures Inv(cfg, Take(cfg, s, step))
  {
    hide Served, Enabled, AddAll;
    assert s.lock == Some(step.id);
  }

  // The steps that register the tools.
  lemma RegisterStepKeepsInv(cfg: Config, s: State, step: Step)
    requires Inv(cfg, s) && Can(s, step) && (step.Pipeline? || step.AddOne?)
    ensures Inv(cfg, Take(cfg, s, step))
  {
    hide Served, Enabled, AddAll;
    var r := step.id;
    assert s.lock == Some(r);
    match s.at[r]
    case FlagsWritten(c) =>
      AddNothing(Served(cfg, NONE), Enabled(cfg, c));
    case Adding(c, tools, next) =>
      if next < |tools| {
        AddAllStep(Served(cfg, NONE), tools, next);
      } else {
        assert tools[..next] == tools;
        ReregisteringIsExact(cfg, NONE, c);
      }
  }

  // The event, the stored flag and the unlock.
  lemma LastStepKeepsInv(cfg: Config, s: State, step: Step)
    requires Inv(cfg, s) && Can(s, step) && (step.Emit? || step.Store? || step.Unlock?)
    ensures Inv(cfg, Take(cfg, s, step))
  {
    hide Served, Enabled, AddAll;
    assert s.lock == Some(step.id);
  }

  lemma InvStep(cfg: Config, s: State, step: Step)
    requires Inv(cfg, s) && Can(s, step)
    ensures Inv(cfg, Take(cfg, s, step))
  {
    if IsCheckStep(step) {
      CheckStepKeepsInv(cfg, s, step);
    } else if step.Pipeline? || step.AddOne? {
      RegisterStepKeepsInv(cfg, s, step);
    } else if step.Emit? || step.Store? || step.Unlock? {
      LastStepKeepsInv(cfg, s, step);
    } else {
      OutsideStepKeepsInv(cfg, s, step);
    }
  }

  // ---------------------------------------------------------------- every run

  // A run: each state follows from the one before by one step of one request.
  ghost predicate IsRun(cfg: Config, run: seq<State>) {
    run != [] && forall i :: 0 <= i < |run| - 1 ==> Follows(cfg, run[i], run[i + 1])
  }

  ghost predicate Follows(cfg: Config, s: State, t: State) {
    exists step :: Can(s, step) && t == Take(cfg, s, step)
  }

  lemma {:induction false} InvHolds(cfg: Config, run: seq<State>, i: nat)
    requires IsRun(cfg, run) && Inv(cfg, run[0]) && i < |run|
    ensures Inv(cfg, run[i])
  {
    hide Inv, Can, Take;
    if i > 0 {
      InvHolds(cfg, run, i - 1);
      assert Follows(cfg, run[i - 1], run[i - 1 + 1]);
      var step :| Can(run[i - 1], step) && run[i] == Take(cfg, run[i - 1], step);
      InvStep(cfg, run[i - 1], step);
    }
  }

  lemma InitInv(cfg: Config, s: State)
    requires Init(cfg, s)
    ensures Inv(cfg, s)
  {
  }

  // In every interleaving: the event is emitted at most once, at most one request
  // is in the critical section, and "verified" is never seen before the flags,
  // the tools and the event are all in place.
  lemma SafeInEveryRun(cfg: Config, run: seq<State>, i: nat)
    requires IsRun(cfg, run) && Init(cfg, run[0]) && i < |run|
    ensures run[i].emitted <= 1
    ensures forall r, q :: r in run[i].at && q in run[i].at && !Outside(run[i].at[r]) && !Outside(run[i].at[q]) ==> r == q
    ensures run[i].verified ==> run[i].emitted == 1 && run[i].registry == Served(cfg, run[i].caps)
  {
    hide Served;
    InitInv(cfg, run[0]);
    InvHolds(cfg, run, i);
  }

  // Once verified, nothing shared changes again.
  lemma VerifiedIsFinal(cfg: Config, s: State, step: Step)
    requires Inv(cfg, s) && s.verified && Can(s, step)
    ensures var t := Take(cfg, s, step);
      t.verified && t.emitted == s.emitted && t.caps == s.caps && t.registry == s.registry
  {
    hide Served, Enabled, AddAll;
  }

  // So in every run what a verified state holds is what every later state holds.
  lemma {:induction false} FinalInEveryRun(cfg: Config, run: seq<State>, i: nat, j: nat)
    requires IsRun(cfg, run) && Init(cfg, run[0]) && i <= j < |run| && run[i].verified
    ensures run[j] == run[i].(lock := run[j].lock, at := run[j].at)
    decreases j - i
  {
    hide Inv, Can, Take, Init;
    if i < j {
      FinalInEveryRun(cfg, run, i, j - 1);
      InitInv(cfg, run[0]);
      InvHolds(cfg, run, j - 1);
      assert Follows(cfg, run[j - 1], run[j - 1 + 1]);
      var step :| Can(run[j - 1], step) && run[j] == Take(cfg, run[j - 1], step);
      VerifiedIsFinal(cfg, run[j - 1], step);
    }
  }

  // A failed check changes nothing but the request's own place.
  lemma FailureChangesNothing(cfg: Config, s: State, r: Id)
    requires Inv(cfg, s) && Can(s, CheckFails(r))
    ensures Take(cfg, s, CheckFails(r)) == Move(s, r, Leaving) && Untouched(cfg, s)
  {
  }

  // The flags in force once verified are those one check found, all three of them.
  lemma FlagsAreOneCheck(cfg: Config, s: State, r: Id)
    requires Inv(cfg, s) && Can(s, Store(r))
    ensures Take(cfg, s, Store(r)).verified && Take(cfg, s, Store(r)).caps == s.at[r].found
    ensures Take(cfg, s, Store(r)).registry == Served(cfg, s.at[r].found)
  {
  }

  // Somewhere before state i of the run, a request's check passed with this result.
  ghost predicate PassedBefore(cfg: Config, run: seq<State>, i: nat, found: Capabilities)
    requires i <= |run|
  {
    exists j: nat, id: Id {:trigger PassesAt(cfg, run, j, id, found)} :: j + 1 < i && PassesAt(cfg, run, j, id, found)
  }

  ghost predicate PassesAt(cfg: Config, run: seq<State>, j: nat, id: Id, found: Capabilities)
    requires j + 1 < |run|
  {
    Can(run[j], CheckPasses(id, found)) && run[j + 1] == Take(cfg, run[j], CheckPasses(id, found))
  }

  predicate HasFound(pc: Pc) {
    pc.Found? || pc.GdsWritten? || pc.SearchWritten? || pc.FlagsWritten? || pc.Adding? || pc.Registered? || pc.Emitted?
  }

  // A result that a request carries after a step it either carried before or has
  // just been given.
  lemma FoundStep(cfg: Config, s: State, t: State, step: Step, r: Id)
    requires Can(s, step) && t == Take(cfg, s, step)
    requires r in t.at && HasFound(t.at[r])
    ensures step == CheckPasses(r, t.at[r].found) || (r in s.at && HasFound(s.at[r]) && s.at[r].found == t.at[r].found)
  {
    hide Enabled;
  }

  lemma VerifiedStep(cfg: Config, s: State, step: Step)
    requires Inv(cfg, s) && Can(s, step) && !s.verified && Take(cfg, s, step).verified
    ensures step.Store? && step.id in s.at && HasFound(s.at[step.id]) && Take(cfg, s, step).caps == s.at[step.id].found
  {
    hide Enabled, Served, AddAll;
  }

  lemma {:induction false} FoundInRun(cfg: Config, run: seq<State>, i: nat, r: Id)
    requires IsRun(cfg, run) && Init(cfg, run[0]) && i < |run|
    requires r in run[i].at && HasFound(run[i].at[r])
    ensures PassedBefore(cfg, run, i + 1, run[i].at[r].found)
  {
    hide Can, Take;
    if i > 0 {
      assert Follows(cfg, run[i - 1], run[i - 1 + 1]);
      var step :| Can(run[i - 1], step) && run[i] == Take(cfg, run[i - 1], step);
      FoundStep(cfg, run[i - 1], run[i], step, r);
      if step == CheckPasses(r, run[i].at[r].found) {
        assert PassesAt(cfg, run, i - 1, r, run[i].at[r].found);
      } else {
        FoundInRun(cfg, run, i - 1, r);
        PassedEarlier(cfg, run, i, i + 1, run[i].at[r].found);
      }
    }
  }

  lemma PassedEarlier(cfg: Config, run: seq<State>, i: nat, k: nat, found: Capabilities)
    requires i <= k <= |run| && PassedBefore(cfg, run, i, found)
    ensures PassedBefore(cfg, run, k, found)
  {
  }

  // In every run the flags of a verified state are those that one check of that run
  // found, and the tools served are the ones for them.
  lemma {:induction false} VerifiedFlagsWereFound(cfg: Config, run: seq<State>, i: nat)
    requires IsRun(cfg, run) && Init(cfg, run[0]) && i < |run| && run[i].verified
    ensures PassedBefore(cfg, run, i + 1, run[i].caps) && run[i].registry == Served(cfg, run[i].caps)
  {
    hide Can, Take, Inv, Served;
    SafeInEveryRun(cfg, run, i);
    InitInv(cfg, run[0]);
    InvHolds(cfg, run, i - 1);
    assert Follows(cfg, run[i - 1], run[i - 1 + 1]);
    var step :| Can(run[i - 1], step) && run[i] == Take(cfg, run[i - 1], step);
    if run[i - 1].verified {
      VerifiedFlagsWereFound(cfg, run, i - 1);
      VerifiedIsFinal(cfg, run[i - 1], step);
      PassedEarlier(cfg, run, i, i + 1, run[i].caps);
    } else {
      VerifiedStep(cfg, run[i - 1], step);
      FoundInRun(cfg, run, i - 1, step.id);
      PassedEarlier(cfg, run, i, i + 1, run[i].caps);
    }
  }

  // ---------------------------------------------------------------- no run gets stuck

  // Some step is possible in every state with an unfinished request: the holder of
  // the lock can always move, and when the lock is free any unfinished request can.
  lemma NoDeadlock(cfg: Config, s: State, r: Id)
    requires Inv(cfg, s) && r in s.at && s.at[r] != Finished
    ensures exists step: Step :: !step.Arrive? && Can(s, step)
  {
    hide Served, Enabled, AddAll;
    var who := if s.lock.Some? then s.lock.value else r;
    OwnStepPossible(cfg, s, who, ALL);
  }

  // The next step of a request that can move, with a check that passes.
  function Own(s: State, r: Id, result: Capabilities): Step
    requires r in s.at
  {
    match s.at[r]
    case Arrived => TestUnlocked(r)
    case Waiting => Lock(r)
    case Entered => TestLocked(r)
    case Checking => CheckPasses(r, result)
    case Found(_) => WriteGds(r)
    case GdsWritten(_) => WriteSearch(r)
    case SearchWritten(_) => WriteCypher25(r)
    case FlagsWritten(_) => Pipeline(r)
    case Adding(_, _, _) => AddOne(r)
    case Registered(_) => Emit(r)
    case Emitted(_) => Store(r)
    case Leaving => Unlock(r)
    case Finished => Arrive(r)
  }

  // Steps left until the check has passed and been stored.
  function Left(cfg: Config, pc: Pc, result: Capabilities): nat {
    match pc
    case Arrived => |Enabled(cfg, result)| + 20
    case Waiting => |Enabled(cfg, result)| + 19
    case Entered => |Enabled(cfg, result)| + 18
    case Checking => |Enabled(cfg, result)| + 17
    case Found(c) => |Enabled(cfg, c)| + 16
    case GdsWritten(c) => |Enabled(cfg, c)| + 15
    case SearchWritten(c) => |Enabled(cfg, c)| + 14
    case FlagsWritten(c) => |Enabled(cfg, c)| + 13
    case Adding(_, tools, next) => if next <= |tools| then |tools| - next + 12 else 12
    case Registered(_) => 11
    case Emitted(_) => 10
    case Leaving => |Enabled(cfg, result)| + 40
    case Finished => |Enabled(cfg, result)| + 50
  }

  ghost predicate Progresses(cfg: Config, s: State, r: Id, result: Capabilities)
    requires r in s.at && Can(s, Own(s, r, result))
  {
    var t := Take(cfg, s, Own(s, r, result));
    t.verified || (r in t.at && t.at[r] != Finished && t.at[r] != Leaving && (t.lock == None || t.lock == Some(r))
                   && Left(cfg, t.at[r], result) < Left(cfg, s.at[r], result))
  }

  lemma OwnStepPossible(cfg: Config, s: State, r: Id, result: Capabilities)
    requires Inv(cfg, s) && r in s.at && s.at[r] != Finished
    requires s.lock == None || s.lock == Some(r)
    ensures Can(s, Own(s, r, result)) && !Own(s, r, result).Arrive?
  {
    hide Served, Enabled, AddAll, Shared, AtRest;
  }

  lemma PublishProgresses(cfg: Config, s: State, r: Id, result: Capabilities)
    requires Inv(cfg, s) && !s.verified && r in s.at && s.lock == Some(r)
    requires s.at[r].FlagsWritten? || s.at[r].Adding?
    ensures Can(s, Own(s, r, result)) && Progresses(cfg, s, r, result)
  {
    hide Served, Enabled, AddAll;
  }

  lemma OwnStepProgresses(cfg: Config, s: State, r: Id, result: Capabilities)
    requires Inv(cfg, s) && !s.verified && r in s.at && s.at[r] != Finished && s.at[r] != Leaving
    requires s.lock == None || s.lock == Some(r)
    ensures Can(s, Own(s, r, result)) && Progresses(cfg, s, r, result)
  {
    hide Served, Enabled, AddAll, Shared, AtRest;
    OwnStepPossible(cfg, s, r, result);
    if s.at[r].FlagsWritten? || s.at[r].Adding? {
      PublishProgresses(cfg, s, r, result);
    }
  }

  lemma RunAfter(cfg: Config, s: State, t: State, rest: seq<State>)
    requires Follows(cfg, s, t) && IsRun(cfg, rest) && rest[0] == t
    ensures IsRun(cfg, [s] + rest)
  {
    hide Follows;
    var run := [s] + rest;
    forall i | 0 <= i < |run| - 1 ensures Follows(cfg, run[i], run[i + 1]) {
      if i > 0 {
        assert Follows(cfg, rest[i - 1], rest[i - 1 + 1]);
      }
    }
  }

  // A request that can move and whose check passes gets to the end.
  lemma {:induction false} OwnRun(cfg: Config, s: State, r: Id, result: Capabilities) returns (run: seq<State>)
    requires Inv(cfg, s) && !s.verified && r in s.at && s.at[r] != Finished && s.at[r] != Leaving
    requires s.lock == None || s.lock == Some(r)
    ensures IsRun(cfg, run) && run[0] == s && run[|run| - 1].verified
    decreases Left(cfg, s.at[r], result)
  {
    hide Inv, Can, Take, Own, Left, Enabled;
    OwnStepProgresses(cfg, s, r, result);
    var step := Own(s, r, result);
    var t := Take(cfg, s, step);
    InvStep(cfg, s, step);
    assert Follows(cfg, s, t);
    var rest := [t];
    if !t.verified {
      rest := OwnRun(cfg, t, r, result);
    }
    RunAfter(cfg, s, t, rest);
    run := [s] + rest;
  }

  // However many checks have failed, and wherever the requests stand, the server
  // can still become verified.
  lemma CanStillSucceed(cfg: Config, s: State, newcomer: Id, result: Capabilities)
    requires Inv(cfg, s) && !s.verified && newcomer !in s.at
    ensures exists run: seq<State> :: IsRun(cfg, run) && run[0] == s && run[|run| - 1].verified
  {
    hide Served, Enabled, AddAll, Shared, AtRest;
    var run: seq<State>;
    if s.lock.Some? && s.at[s.lock.value] != Leaving {
      run := OwnRun(cfg, s, s.lock.value, result);
    } else if s.lock.Some? {
      var step := Unlock(s.lock.value);
      var t := Take(cfg, s, step);
      InvStep(cfg, s, step);
      assert Follows(cfg, s, t);
      var rest := FromFreeLock(cfg, t, newcomer, result);
      RunAfter(cfg, s, t, rest);
      run := [s] + rest;
    } else {
      run := FromFreeLock(cfg, s, newcomer, result);
    }
  }

  lemma FromFreeLock(cfg: Config, s: State, newcomer: Id, result: Capabilities) returns (run: seq<State>)
    requires Inv(cfg, s) && !s.verified && newcomer !in s.at && s.lock == None
    ensures IsRun(cfg, run) && run[0] == s && run[|run| - 1].verified
  {
    hide Served, Enabled, AddAll, Shared, AtRest;
    var step := Arrive(newcomer);
    var t := Take(cfg, s, step);
    InvStep(cfg, s, step);
    assert Follows(cfg, s, t);
    var rest := OwnRun(cfg, t, newcomer, result);
    RunAfter(cfg, s, t, rest);
    run := [s] + rest;
  }

  // An id no request has used.
  lemma {:induction false} NewId(used: set<Id>) returns (id: Id)
    ensures forall u :: u in used ==> u < id
    decreases |used|
  {
    if used == {} {
      id := 0;
    } else {
      var u :| u in used;
      var below := NewId(used - {u});
      id := if below > u then below else u + 1;
      assert forall v :: v in used ==> v == u || v in used - {u};
    }
  }

  lemma RunsJoin(cfg: Config, run: seq<State>, more: seq<State>)
    requires IsRun(cfg, run) && IsRun(cfg, more) && run[|run| - 1] == more[0]
    ensures IsRun(cfg, run + more[1..]) && (run + more[1..])[|run + more[1..]| - 1] == more[|more| - 1]
  {
    hide Follows;
    var all := run + more[1..];
    forall i | 0 <= i < |all| - 1 ensures Follows(cfg, all[i], all[i + 1]) {
      if i >= |run| - 1 {
        var k := i - (|run| - 1);
        assert all[i] == more[k] && all[i + 1] == more[k + 1];
      }
    }
  }

  // Every run that has not succeeded can be carried on to one that has.
  lemma EveryRunCanSucceed(cfg: Config, run: seq<State>, result: Capabilities)
    requires IsRun(cfg, run) && Init(cfg, run[0]) && !run[|run| - 1].verified
    ensures exists more: seq<State> :: IsRun(cfg, run + more) && (run + more)[|run + more| - 1].verified
  {
    hide Inv, Init, Follows;
    var last := run[|run| - 1];
    InitInv(cfg, run[0]);
    InvHolds(cfg, run, |run| - 1);
    var newcomer := NewId(last.at.Keys);
    CanStillSucceed(cfg, last, newcomer, result);
    var tail: seq<State> :| IsRun(cfg, tail) && tail[0] == last && tail[|tail| - 1].verified;
    RunsJoin(cfg, run, tail);
  }
}
