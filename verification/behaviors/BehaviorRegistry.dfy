/**
 The registry and its verbs in the form the source gives them: fields updated in place, a
 toggle that calls out twice, and the boundary's worklist loops.  Callbacks run a script, which
 is any finite series of calls back into the registry followed by a return or a raise.  Every
 method is proved to do nothing but a run of the step machine, so the theorems about runs hold
 of it; `RunApplyBoundary` is also proved to terminate while the declares of its callbacks do.
 */
module BehaviorRegistry {
  import opened Options
  import opened RefLedger
  import opened BehaviorSteps
  import opened BehaviorEffects
  import opened BehaviorInvariant
  import opened BehaviorPreservation
  import opened BehaviorRuns
  import opened BehaviorTheorems
  import opened BehaviorScripts
  import opened BehaviorOutcomes

  class Registry {
    var slots: map<int, Slot>
    var refTop: nat
    var store: map<string, Behavior>
    var nextSeq: nat
    var boundaryDone: bool
    var handles: map<nat, Handle>
    var nextHandle: nat
    var edges: seq<Edge>
    var queue: seq<QueuedSet>
    var refs: map<Cell, int>
    var frames: seq<Frame>      // the call stack, engine frames and user frames
    ghost var log: seq<Entry>

    ghost function S(): State
      reads this
    {
      State(slots, refTop, false, store, nextSeq, boundaryDone, handles, nextHandle, edges, queue, frames, refs, log)
    }

    constructor ()
      ensures S() == Init() && Inv(S())
    {
      slots, refTop, store, nextSeq, boundaryDone := map[], 0, map[], 0, false;
      handles, nextHandle, edges, queue, refs := map[], 1, [], [], map[];
      frames, log := [Main], [];
      new;
      InitInv();
    }

    // ---- The Lua registry ------------------------------------------------------

    function Held(c: Cell): int
      reads this
      ensures Held(c) == RefAt(S(), c)
    {
      if c in refs then refs[c] else NO_REF
    }

    function RawGet(c: Cell): Value
      reads this
      ensures RawGet(c) == ValueAt(S(), c)
    {
      if Held(c) in slots then slots[Held(c)].value else Nil
    }

    method LuaRef(hint: int, v: Value, c: Cell)
      modifies `slots, `refTop, `refs
      ensures S() == Ref(old(S()), hint, v, c)
    {
      if v.Nil? {
        refs := refs[c := NIL_REF];
      } else {
        var r := if hint > 0 && hint !in slots then hint else refTop + 1;
        slots := slots[r := Slot(v, c)];
        refTop := if r > refTop then r else refTop;
        refs := refs[c := r];
      }
    }

    // A reference is released only while its slot is live.
    method LuaUnref(c: Cell)
      requires Held(c) >= 0 ==> Held(c) in slots
      modifies `slots, `refs
      ensures S() == Unref(old(S()), c)
    {
      if Held(c) >= 0 {
        slots := slots - {Held(c)};
      }
      refs := refs[c := NO_REF];
    }

    method MoveRef(c: Cell, d: Cell)
      modifies `slots, `refs
      ensures S() == Move(old(S()), c, d)
    {
      var r := Held(c);
      if r in slots {
        slots := slots[r := slots[r].(owner := d)];
      }
      refs := refs[c := NO_REF][d := r];
    }

    lemma HeldIsLive(c: Cell)
      requires Ledger(S())
      ensures Held(c) >= 0 ==> Held(c) in slots
    {}

    method MintBuiltHandle(hint: int, v: Value) returns (h: nat)
      modifies `slots, `refTop, `refs, `handles, `nextHandle
      ensures S() == MintBuilt(old(S()), hint, v) && h == old(nextHandle)
    {
      h := nextHandle;
      nextHandle := h + 1;
      handles := handles[h := BuiltHandle(false)];
      LuaRef(hint, v, HandleOf(h));
    }

    // ---- The record ------------------------------------------------------------

    method RecordLoadSet(n: string, author: string, plugin: string)
      requires Ledger(S()) && n in store
      modifies `slots, `refs, `store
      ensures S() == BehaviorSteps.RecordLoadSet(old(S()), n, author, plugin)
    {
      HeldIsLive(RecordOf(n));
      ReplaceRecord(n, Local(0));
      var b := store[n];
      store := store[n := b.(setterAuthor := author, setterPlugin := plugin, valueGeneration := b.valueGeneration + 1)];
    }

    // Let the reference in cell c take the place of the old record.
    method ReplaceRecord(n: string, c: Cell)
      requires Held(RecordOf(n)) >= 0 ==> Held(RecordOf(n)) in slots
      modifies `slots, `refs
      ensures S() == Move(ReleaseRecord(old(S()), n), c, RecordOf(n))
    {
      hide Move, Unref;
      if Held(RecordOf(n)) != NO_REF {
        LuaUnref(RecordOf(n));
      }
      MoveRef(c, RecordOf(n));
    }

    method ClearRecord(n: string)
      requires Ledger(S()) && n in store
      modifies `slots, `refs, `store
      ensures S() == BehaviorSteps.ClearRecord(old(S()), n)
    {
      HeldIsLive(RecordOf(n));
      LuaUnref(RecordOf(n));
      var b := store[n];
      store := store[n := b.(applied := false, setterAuthor := "", setterPlugin := "",
                             valueGeneration := b.valueGeneration + 1)];
    }

    method RecordEdge(e: Edge)
      modifies `edges
      ensures S() == BehaviorSteps.RecordEdge(old(S()), e)
    {
      if e.consumerPlugin == "" { return; }
      var i := 0;
      while i < |edges|
        invariant i <= |edges| && e !in edges[..i]
        invariant S() == old(S())
      {
        if edges[i] == e { return; }
        i := i + 1;
      }
      edges := edges + [e];
    }

    // ---- Verbs that call nothing back ------------------------------------------

    predicate Built(h: nat)
      reads this
      ensures Built(h) == BuiltValue(S(), h)
    {
      h in handles && handles[h].BuiltHandle? && !handles[h].consumed && Held(HandleOf(h)) != NO_REF
    }

    method ConsumeChild(h: nat)
      requires Ledger(S())
      modifies `slots, `refs, `handles
      ensures S() == DoConsumeChild(old(S()), h)
    {
      if Built(h) {
        HeldIsLive(HandleOf(h));
        LuaUnref(HandleOf(h));
        handles := handles[h := BuiltHandle(true)];
      }
    }

    method Get(n: string) returns (h: nat)
      modifies `handles, `nextHandle
      ensures S() == DoGet(old(S()), n)
      ensures n in old(store) ==> h == old(nextHandle)
    {
      h := 0;
      if n in store {
        h := nextHandle;
        var current := RawGet(if Held(RecordOf(n)) != NO_REF then RecordOf(n) else DefaultOf(n));
        handles := handles[h := BehaviorHandle(n, store[n].valueGeneration, current)];
        nextHandle := h + 1;
      }
    }

    // Re-pin a built value into a local and consume its handle.
    method PinValue(h: nat, hint: int)
      requires Ledger(S()) && Built(h) && Held(Local(0)) == NO_REF
      modifies `slots, `refTop, `refs, `handles
      ensures S() == Pin(old(S()), h, hint)
    {
      RefKeepsLedger(S(), hint, RawGet(HandleOf(h)), Local(0));
      LuaRef(hint, RawGet(HandleOf(h)), Local(0));
      HeldIsLive(HandleOf(h));
      LuaUnref(HandleOf(h));
      handles := handles[h := BuiltHandle(true)];
    }

    // The C++ implementation and revert become Lua closures.
    method BuildTrampolines(hasRevert: bool, implHint: int, revertHint: int)
      modifies `slots, `refTop, `refs
      ensures S() == Trampolines(old(S()), hasRevert, implHint, revertHint)
    {
      LuaRef(implHint, IMPL_TRAMPOLINE, Local(1));
      if hasRevert {
        LuaRef(revertHint, REVERT_TRAMPOLINE, Local(2));
      }
    }

    // A rejected declare releases what it had pinned.
    method ReleaseDeclare()
      requires Ledger(S())
      modifies `slots, `refs
      ensures S() == Unref(Unref(Unref(old(S()), Local(0)), Local(1)), Local(2))
    {
      hide Unref, Ledger;
      UnrefKeepsLedger(S(), Local(0));
      UnrefKeepsLedger(Unref(S(), Local(0)), Local(1));
      HeldIsLive(Local(0));
      LuaUnref(Local(0));
      HeldIsLive(Local(1));
      LuaUnref(Local(1));
      HeldIsLive(Local(2));
      LuaUnref(Local(2));
    }

    // RegisterOne of a name that is not taken.
    method Register(n: string, tier: Tier)
      modifies `slots, `refs, `store, `nextSeq
      ensures S() == Adopt(old(S()), n, tier)
    {
      hide Move;
      nextSeq := nextSeq + 1;
      store := store[n := Behavior(tier, false, "", "", nextSeq, 1)];
      MoveRef(Local(0), DefaultOf(n));
      MoveRef(Local(1), ImplOf(n));
      MoveRef(Local(2), RevertOf(n));
    }

    method Declare(n: string, tier: Tier, h: nat, hasRevert: bool, defaultHint: int, implHint: int, revertHint: int)
      returns (ok: bool)
      requires Inv(S())
      modifies `slots, `refTop, `refs, `handles, `store, `nextSeq
      ensures S() == DoDeclare(old(S()), n, tier, h, hasRevert, defaultHint, implHint, revertHint)
      ensures ok <==> !old(boundaryDone) && old(Built(h)) && n !in old(store)
    {
      hide Ledger, Placed, Stack, Truth, Fresh, History, Pin, Trampolines, Unref, Adopt, RefAt;
      ok := false;
      if boundaryDone || !Built(h) { return; }
      PinCells(S(), h, defaultHint);
      PinValue(h, defaultHint);
      TrampolinesCells(S(), hasRevert, implHint, revertHint);
      BuildTrampolines(hasRevert, implHint, revertHint);
      if n in store {
        ReleaseDeclare();
        return;
      }
      Register(n, tier);
      ok := true;
    }

    // ---- Callbacks -------------------------------------------------------------

    // lua_pcall of the function in `fn`: the callback runs its script.  `u` is the state in which the
    // callback ended.
    method Pcall(fn: Cell, args: seq<Value>, script: Script) returns (ok: bool, ghost u: State)
      requires Ledger(S()) && Inv(Enter(S(), fn, args, script.Entering()))
      modifies this
      ensures CalledBack(Enter(old(S()), fn, args, script.Entering()), u, script)
      ensures ok == !script.raises && S() == Leave(u, script.raises)
      decreases Size(script), 0
    {
      hide Inv, Ledger, MintBuilt, Unref, Reaches;
      TouchHeld(S(), fn);
      if script.callee.CFunction? {
        var h := MintBuiltHandle(script.hint, FirstOf(args));
        frames := frames + [User(Some(h), fn, args)];
      } else {
        frames := frames + [User(None, fn, args)];
      }
      assert S() == Enter(old(S()), fn, args, script.Entering());
      RunCalls(script.calls);
      u := S();
      Depart(script.raises);
      ok := !script.raises;
    }

    // The callback's frame goes; behind a C function that returned, its transient handle goes too.
    method Depart(raised: bool)
      requires Inv(S()) && frames != [] && Top(S()).User?
      modifies `slots, `refs, `handles, `frames
      ensures S() == Leave(old(S()), raised)
      ensures var transient := old(Top(S()).transient);
              handles == old(handles) - (if transient.Some? && !raised then {transient.value} else {})
    {
      hide Inv, Ledger, Unref;
      ghost var u := S();
      var transient := frames[|frames| - 1].transient;
      frames := frames[..|frames| - 1];
      if transient.Some? && !raised {
        LedgerAfterPop(u);
        HeldIsLive(HandleOf(transient.value));
        LuaUnref(HandleOf(transient.value));
        handles := handles - {transient.value};
      }
    }

    lemma LedgerAfterPop(u: State)
      requires Inv(u) && S() == Pop(u)
      ensures Ledger(S())
    {
      hide Placed, Stack, Truth, Fresh, History;
      SameCellsKeepsLedger(u, S());
    }

    // User code: a series of calls into the registry.
    method RunCalls(calls: seq<Call>)
      requires Inv(S()) && UserOnTop(S())
      modifies this
      ensures Inv(S()) && Reaches(old(S()), S()) && frames == old(frames) && Grew(old(S()), S(), DeclaresIn(calls))
      ensures Played(old(S()), calls, S())
      decreases SizeIn(calls), 4
    {
      hide Inv, Reaches, Step, Made;
      ReachesRefl(S());
      if calls == [] { return; }
      RunCall(calls[0]);
      ghost var t := S();
      RunCalls(calls[1..]);
      ReachesTransitive(old(S()), t, S());
    }

    method RunCall(call: Call)
      requires Inv(S()) && UserOnTop(S())
      modifies this
      ensures Inv(S()) && Reaches(old(S()), S()) && frames == old(frames) && Grew(old(S()), S(), DeclaresOf(call))
      ensures Made(old(S()), call, S())
      decreases SizeOf(call), 3
    {
      hide Inv, Reaches, DoDeclare, MintBuilt, DoGet, DoConsumeChild, DoSet, DoInvoke;
      ghost var s := S();
      ReachesRefl(s);
      ReachesRefl(FirstStep(s, call));
      match call {
        case CallBuild(v, hint) =>
          var _ := MintBuiltHandle(hint, v);
          SimpleStep(s, Build(v, hint), 0);
        case CallConsumeChild(h) =>
          InvHasLedger(s);
          ConsumeChild(h);
          SimpleStep(s, Event.ConsumeChild(h), 0);
        case CallGet(n) =>
          var _ := Get(n);
          SimpleStep(s, Event.Get(n), 0);
        case CallDeclare(n, tier, h, hasRevert, d, i, r) =>
          var _ := Declare(n, tier, h, hasRevert, d, i, r);
          SimpleStep(s, Event.Declare(n, tier, h, hasRevert, d, i, r), 1);
        case CallSet(n, h, author, plugin, earlyStop, hint, onRevert, onImplementation) =>
          var _, _, _ := Set(n, h, author, plugin, earlyStop, hint, onRevert, onImplementation);
        case CallInvoke(h, args, hint, body) =>
          var _, _ := Invoke(h, args, hint, body);
      }
    }

    lemma InvHasLedger(s: State)
      requires Inv(s)
      ensures Ledger(s) && (forall k :: RefAt(s, Local(k)) == NO_REF)
    {}

    // A verb that calls nothing back is one step.
    lemma SimpleStep(s: State, e: Event, k: nat)
      requires Inv(s) && S() == Step(s, e) && UserOnTop(s)
      requires e.Build? || e.ConsumeChild? || e.Get? || (e.Declare? && k == 1)
      ensures Inv(S()) && Reaches(s, S()) && S().frames == s.frames && Grew(s, S(), k)
    {
      hide Inv, Reaches, MintBuilt, DoGet, DoConsumeChild, DoDeclare;
      StepKeeps(s, e);
      ReachesRefl(s);
      ReachesStep(s, s, e);
      SimpleStepStore(s, e, k);
    }

    lemma SimpleStepStore(s: State, e: Event, k: nat)
      requires Inv(s) && UserOnTop(s)
      requires e.Build? || e.ConsumeChild? || e.Get? || (e.Declare? && k == 1)
      ensures Step(s, e).frames == s.frames && Grew(s, Step(s, e), k)
    {
      hide Inv, DoDeclare, Ref, Unref;
      if e.Declare? {
        DeclareStore(s, e.n, e.tier, e.h, e.hasRevert, e.defaultHint, e.implHint, e.revertHint);
      }
    }

    // PushHandleValue.
    function PushHandleValue(h: nat): Access
      reads this
      ensures PushHandleValue(h) == Read(S(), h)
    {
      if h !in handles then BadHandle else
      match handles[h]
      case BuiltHandle(consumed) =>
        if consumed || Held(HandleOf(h)) == NO_REF then BadHandle else Ok(RawGet(HandleOf(h)))
      case BehaviorHandle(n, generation, _) =>
        if n !in store then BadHandle
        else if store[n].valueGeneration != generation then Stale
        else Ok(RawGet(if Held(RecordOf(n)) != NO_REF then RecordOf(n) else DefaultOf(n)))
      case StagedHandle(_, _) => BadHandle
    }

    // The arguments go onto the stack one by one; the first that does not read ends it.
    method PushArguments(args: seq<nat>) returns (r: Access, pushed: seq<Value>)
      ensures r == FirstUnreadable(S(), args)
      ensures r.Ok? ==> pushed == Arguments(S(), args)
    {
      pushed := [];
      for i := 0 to |args|
        invariant FirstUnreadable(S(), args[..i]) == Ok(Nil)
        invariant |pushed| == i && pushed == Arguments(S(), args)[..i]
      {
        assert args[..i + 1][..i] == args[..i];
        if !PushHandleValue(args[i]).Ok? {
          FirstStays(S(), args, i);
          return PushHandleValue(args[i]), pushed;
        }
        pushed := pushed + [PushHandleValue(args[i]).value];
      }
      assert args[..|args|] == args;
      return Ok(Nil), pushed;
    }

    // ---- The toggle ------------------------------------------------------------

    // Undo of a toggle that does not commit: the new value's reference goes, and its frame.
    method DropToggle()
      requires Ledger(S()) && frames != [] && Top(S()).Toggle?
      modifies `slots, `refs, `frames
      ensures S() == BehaviorSteps.DropToggle(old(S()))
    {
      HeldIsLive(FrameOf(|frames| - 1));
      LuaUnref(FrameOf(|frames| - 1));
      frames := frames[..|frames| - 1];
    }

    // The new value becomes the record.
    method CommitToggle()
      requires Ledger(S()) && frames != [] && Top(S()).Toggle? && Top(S()).name in store
      modifies `slots, `refs, `store, `frames, `edges
      ensures S() == BehaviorSteps.CommitToggle(old(S()))
    {
      hide Ledger, Move, Unref, ReleaseRecord, BehaviorSteps.RecordEdge;
      var toggle := frames[|frames| - 1];
      var n := toggle.name;
      HeldIsLive(RecordOf(n));
      ReplaceRecord(n, FrameOf(|frames| - 1));
      var b := store[n];
      store := store[n := b.(applied := true, valueGeneration := b.valueGeneration + 1)];
      frames := frames[..|frames| - 1];
      if toggle.queuedBy.Some? {
        RecordEdge(toggle.queuedBy.value);
      }
    }

    method CallRevert(n: string, script: Script) returns (ok: bool, ghost u: State)
      requires Ledger(S()) && n in store && Inv(BehaviorSteps.CallRevert(S(), n, script.Entering()))
      modifies this
      ensures CalledBack(BehaviorSteps.CallRevert(old(S()), n, script.Entering()), u, script)
      ensures ok == !script.raises && S() == Leave(u, script.raises)
      decreases Size(script), 1
    {
      hide Inv, Reaches, Enter, Leave, Ledger;
      TouchHeld(S(), RecordOf(n));
      var v := RawGet(RecordOf(n));
      SameCellsKeepsLedger(S(), Log(S(), RevertCalled(n, v)));
      log := log + [RevertCalled(n, v)];
      ok, u := Pcall(RevertOf(n), [v], script);
    }

    method CallImplementation(script: Script) returns (ok: bool, ghost u: State)
      requires Ledger(S()) && frames != [] && Top(S()).Toggle?
      requires Inv(BehaviorSteps.CallImplementation(S(), script.Entering()))
      modifies this
      ensures CalledBack(BehaviorSteps.CallImplementation(old(S()), script.Entering()), u, script)
      ensures ok == !script.raises && S() == Leave(u, script.raises)
      decreases Size(script), 1
    {
      hide Inv, Reaches, Enter, Leave, Ledger;
      ghost var s := S();
      var i := |frames| - 1;
      var toggle := frames[i];
      var v := RawGet(FrameOf(i));
      frames := frames[i := Toggle(toggle.name, Implementing(v), toggle.queuedBy)];
      log := log + [ImplCalled(toggle.name, v)];
      SameCellsKeepsLedger(s, S());
      ok, u := Pcall(ImplOf(toggle.name), [v], script);
    }

    // The second half of a toggle: the implementation is called with the new value, which then
    // becomes the record, or nothing does.
    method FinishToggle(script: Script) returns (ok: bool, ghost u: State)
      requires Core(S()) && frames != [] && Top(S()).Toggle? && Top(S()).name in store
      requires Inv(BehaviorSteps.CallImplementation(S(), script.Entering()))
      modifies this
      ensures Inv(S()) && Reaches(BehaviorSteps.CallImplementation(old(S()), script.Entering()), S())
      ensures frames == old(frames)[..|old(frames)| - 1] && Grew(old(S()), S(), Declares(script))
      ensures ok == !script.raises
      ensures CalledBack(BehaviorSteps.CallImplementation(old(S()), script.Entering()), u, script)
      ensures var f := old(Top(S()));
              Below(u, Toggle(f.name, Implementing(old(RawGet(FrameOf(|frames| - 1)))), f.queuedBy)) &&
              RanWith(u, ImplOf(f.name), [old(RawGet(FrameOf(|frames| - 1)))])
      ensures S() == DoReturn(u, script.raises, script.Entering())
      ensures var n := old(Top(S()).name);
              n in store && store[n].applied == ok &&
              (if ok then CurrentValue(S(), n) == old(RawGet(FrameOf(|frames| - 1)))
                     else RefAt(S(), RecordOf(n)) == NO_REF)
      decreases Size(script), 2
    {
      hide Inv, Reaches, DoReturn, Leave, Core, Ledger, Enter, RefAt, ValueAt, Played, Declares, Deref;
      hide BehaviorSteps.DropToggle, BehaviorSteps.ClearRecord, BehaviorSteps.CommitToggle;
      ghost var s := S();
      ghost var e := BehaviorSteps.CallImplementation(s, script.Entering());
      CallImplementationFrames(s, script.Entering());
      CoreLedger(s);
      var n, v := frames[|frames| - 1].name, RawGet(FrameOf(|frames| - 1));
      ok, u := CallImplementation(script);
      ReturnToToggle(u, script.raises, script.Entering());
      ReturnStep(e, u, script.raises, script.Entering());
      CoreLedger(S());
      if ok {
        Commit(u, n, v);
      } else {
        DropToggleCells(S());
        DropToggle();
        ClearRecordCells(S(), n);
        ClearRecord(n);
      }
    }

    // The implementation has returned in state u: what it was called with becomes the record.
    method Commit(ghost u: State, n: string, v: Value)
      requires Inv(u) && |u.frames| > 1 && Top(u).User? && S() == Leave(u, false) && Core(S())
      requires frames != [] && Top(S()).Toggle? && Top(S()).name == n && Top(S()).stage == Implementing(v) && n in store
      requires frames == u.frames[..|u.frames| - 1]
      modifies this
      ensures S() == BehaviorSteps.CommitToggle(Log(old(S()), ImplReturned(n, v)))
      ensures n in store && store[n].applied && CurrentValue(S(), n) == v && store.Keys == old(store).Keys
      ensures frames == old(frames)[..|old(frames)| - 1]
    {
      hide Inv, Leave, Core, Ledger, BehaviorSteps.CommitToggle, RefAt, ValueAt;
      CoreLedger(S());
      Committed(u, n, v);
      SameCellsKeepsLedger(S(), Log(S(), ImplReturned(n, v)));
      log := log + [ImplReturned(n, v)];
      CommitToggle();
    }

    lemma CoreLedger(s: State)
      requires Core(s)
      ensures Ledger(s)
    {}

    // The first half of a toggle that has something to undo: revert is called with the record.
    // If it raises, nothing changes and the new value is dropped.
    method RevertRecord(script: Script, ghost next: Entering) returns (ok: bool, ghost u: State)
      requires Core(S()) && |frames| > 1 && Top(S()).Toggle? && Top(S()).stage.Reverting? && Top(S()).name in store
      requires Inv(BehaviorSteps.CallRevert(S(), Top(S()).name, script.Entering()))
      modifies this
      ensures ok == !script.raises && Inv(u) && Grew(old(S()), S(), Declares(script))
      ensures RanWith(u, RevertOf(old(Top(S()).name)), [old(RawGet(RecordOf(Top(S()).name)))])
      ensures var e := BehaviorSteps.CallRevert(old(S()), old(Top(S()).name), script.Entering());
              if ok then Core(S()) && frames == old(frames) && Inv(BehaviorSteps.CallImplementation(S(), next)) &&
                         Reaches(e, BehaviorSteps.CallImplementation(S(), next)) &&
                         RawGet(FrameOf(|frames| - 1)) == Top(S()).stage.value
              else Inv(S()) && Reaches(e, S()) && frames == old(frames)[..|old(frames)| - 1] && store == u.store &&
                   log == u.log && CalledBack(e, u, script) && Below(u, old(Top(S()))) && S() == DoReturn(u, true, next)
      decreases Size(script), 2
    {
      hide Inv, Reaches, DoReturn, Leave, Core, BehaviorSteps.DropToggle, BehaviorSteps.CallImplementation, Enter,
        RefAt, ValueAt;
      ghost var s := S();
      var n := frames[|frames| - 1].name;
      CallRevertFrames(s, n, script.Entering());
      CoreLedger(s);
      ok, u := CallRevert(n, script);
      ReturnToToggle(u, script.raises, next);
      ReturnStep(BehaviorSteps.CallRevert(s, n, script.Entering()), u, script.raises, next);
      CoreLedger(S());
      if ok {
        StageValue(u, |frames| - 1);
        LeaveCells(u, false, |frames| - 1);
      } else {
        DropToggleCells(S());
        DropToggle();
      }
    }

    // A toggle begins: the new value moves from the local into its frame.
    method PushToggle(n: string, queuedBy: Option<Edge>)
      modifies `slots, `refs, `frames
      ensures S() == Move(Push(old(S()), Toggle(n, Reverting(ValueAt(old(S()), Local(0))), queuedBy)), Local(0),
                          FrameOf(|old(frames)|))
    {
      frames := frames + [Toggle(n, Reverting(RawGet(Local(0))), queuedBy)];
      MoveRef(Local(0), FrameOf(|frames| - 1));
    }

    // The post-load toggle of behavior n to the value pinned in Local(0).
    method ApplyPostLoadToggle(n: string, queuedBy: Option<Edge>, onRevert: Script, onImplementation: Script)
      returns (outcome: Outcome, ghost u: State)
      requires Core(S()) && n in store && UserOnTop(S()) && |frames| % 2 == 1
      requires RefAt(S(), Local(0)) != NO_REF && forall k :: k != 0 ==> RefAt(S(), Local(k)) == NO_REF
      requires boundaryDone || store[n].applied
      modifies this
      ensures Inv(S()) && frames == old(frames) && Grew(old(S()), S(), Declares(onRevert) + Declares(onImplementation))
      ensures Reaches(BeginToggle(old(S()), n, queuedBy, First(old(S()), n, onRevert, onImplementation)), S())
      ensures outcome == OutcomeOf(old(Held(RevertOf(n))) != NO_REF, old(store[n].applied), onRevert, onImplementation)
      ensures outcome.NoRevert? ==> S() == Unref(old(S()), Local(0))
      ensures var start := BeginToggle(old(S()), n, queuedBy, First(old(S()), n, onRevert, onImplementation));
              Ended(outcome, Toggling(start, n, old(RawGet(Local(0))), queuedBy), u, S(), onRevert, onImplementation)
      decreases Size(onRevert) + Size(onImplementation), 1
    {
      hide Inv, Reaches, DoReturn, Leave, Core, Ledger, LastCallback, Move, Unref, RefAt, ValueAt, Declares,
        BeginToggle, CurrentValue, Ended;
      hide BehaviorSteps.CallRevert, BehaviorSteps.CallImplementation;
      ghost var s := S();
      ghost var first := First(s, n, onRevert, onImplementation);
      ghost var start := BeginToggle(s, n, queuedBy, first);
      BeginToggleKeeps(s, n, queuedBy, first);
      ReachesRefl(start);
      NoRevertBegins(s, n, queuedBy, first);
      if Held(RevertOf(n)) == NO_REF {
        CoreLedger(s);
        HeldIsLive(Local(0));
        LuaUnref(Local(0));
        NoRevertEnds(Toggling(start, n, ValueAt(s, Local(0)), queuedBy), s, S(), onRevert, onImplementation);
        return NoRevert, s;
      }
      BeginToggleParts(s, n, queuedBy, onRevert, onImplementation);
      PushToggle(n, queuedBy);
      outcome, u := RunToggle(n, onRevert, onImplementation);
    }

    // The callbacks of a toggle that is on top of the stack.
    method RunToggle(n: string, onRevert: Script, onImplementation: Script) returns (outcome: Outcome, ghost u: State)
      requires Core(S()) && |frames| > 1 && Top(S()).Toggle? && Top(S()).name == n && Top(S()).stage.Reverting? &&
               n in store
      requires RawGet(FrameOf(|frames| - 1)) == Top(S()).stage.value
      requires Inv(FirstCall(S(), n, onRevert, onImplementation))
      modifies this
      ensures Inv(S()) && Reaches(FirstCall(old(S()), n, onRevert, onImplementation), S())
      ensures frames == old(frames)[..|old(frames)| - 1] &&
              Grew(old(S()), S(), Declares(onRevert) + Declares(onImplementation))
      ensures outcome == OutcomeOf(true, old(store[n].applied), onRevert, onImplementation)
      ensures var g := Toggling(FirstCall(old(S()), n, onRevert, onImplementation), n, old(Top(S()).stage.value),
                                old(Top(S()).queuedBy));
              Ended(outcome, g, u, S(), onRevert, onImplementation)
      decreases Size(onRevert) + Size(onImplementation), 0
    {
      hide Inv, Reaches, Core, Ledger, CalledBack, DoReturn, Ended, LastCallback, RefAt, ValueAt, Declares,
        CurrentValue;
      hide BehaviorSteps.CallRevert, BehaviorSteps.CallImplementation;
      ghost var start := FirstCall(S(), n, onRevert, onImplementation);
      ghost var g := Toggling(start, n, frames[|frames| - 1].stage.value, frames[|frames| - 1].queuedBy);
      ReachesRefl(start);
      if store[n].applied {
        var reverted;
        reverted, u := RevertRecord(onRevert, onImplementation.Entering());
        if !reverted {
          CalledLast(start, start, u, onRevert);
          RevertRaisedEnds(g, u, onImplementation.Entering(), onRevert, onImplementation);
          return RevertRaised, u;
        }
      }
      ghost var e := BehaviorSteps.CallImplementation(S(), onImplementation.Entering());
      var ok;
      ok, u := FinishToggle(onImplementation);
      ReachesTransitive(start, e, S());
      CalledLast(start, e, u, onImplementation);
      CalledInv(e, u, onImplementation);
      ImplementationEnds(g, u, onImplementation.Entering(), !ok, onRevert, onImplementation);
      return if ok then Toggled else ImplementationRaised, u;
    }

    lemma CalledInv(e: State, u: State, script: Script)
      requires CalledBack(e, u, script)
      ensures Inv(u)
    {
      hide Inv;
    }

    // Set: record a load-window value, or toggle.
    method Set(n: string, h: nat, author: string, plugin: string, earlyStop: bool, hint: int,
               onRevert: Script, onImplementation: Script)
      returns (ok: bool, toggle: Option<Outcome>, ghost u: State)
      requires Inv(S()) && UserOnTop(S())
      modifies this
      ensures Inv(S()) && Reaches(old(S()), S()) && frames == old(frames)
      ensures Grew(old(S()), S(), Declares(onRevert) + Declares(onImplementation))
      ensures var s := old(S()); var t := DoSet(s, n, h, author, plugin, earlyStop, hint,
                                                First(s, n, onRevert, onImplementation));
              Reaches(t, S()) && (!(n in s.store && (s.boundaryDone || s.store[n].applied)) ==> S() == t)
      ensures ok <==> old(Built(h)) && n in old(store) && !(old(store)[n].tier.Plugin? && earlyStop) &&
                      ((old(boundaryDone) || old(store)[n].applied) ==> old(Held(RevertOf(n))) != NO_REF)
      ensures toggle.Some? <==> old(Built(h)) && n in old(store) && !(old(store)[n].tier.Plugin? && earlyStop) &&
                                (old(boundaryDone) || old(store)[n].applied)
      ensures toggle.Some? ==>
                toggle.value == OutcomeOf(old(Held(RevertOf(n))) != NO_REF, old(store)[n].applied, onRevert,
                                          onImplementation) &&
                (toggle.value.NoRevert? ==> S() == Unref(Pin(old(S()), h, hint), Local(0))) &&
                Ended(toggle.value,
                      Toggling(DoSet(old(S()), n, h, author, plugin, earlyStop, hint,
                                     First(old(S()), n, onRevert, onImplementation)),
                               n, old(RawGet(HandleOf(h))), None),
                      u, S(), onRevert, onImplementation)
      decreases Size(onRevert) + Size(onImplementation), 2
    {
      hide Inv, Core, Ledger, Reaches, LastCallback, Deref, Declares;
      hide Pin, Unref, BeginToggle, BuiltValue, RefAt, BehaviorSteps.RecordLoadSet,
        BehaviorSteps.RecordEdge;
      ghost var s := S();
      ReachesRefl(s);
      ok, toggle, u := false, None, s;
      if !Built(h) || n !in store || (store[n].tier.Plugin? && earlyStop) { return; }
      SetStep(s, n, h, author, plugin, earlyStop, hint, First(s, n, onRevert, onImplementation));
      PinnedToggle(s, h, hint);
      PinHolds(s, h, hint);
      PinValue(h, hint);
      if boundaryDone || store[n].applied {
        var outcome;
        outcome, u := ApplyPostLoadToggle(n, None, onRevert, onImplementation);
        ReachesTransitive(s, DoSet(s, n, h, author, plugin, earlyStop, hint, First(s, n, onRevert, onImplementation)),
                          S());
        ok, toggle := !outcome.NoRevert?, Some(outcome);
      } else {
        RecordLoadSetCells(S(), n, author, plugin);
        RecordLoadSet(n, author, plugin);
        RecordEdge(Edge(author, plugin, n));
        ReachesRefl(S());
        ok := true;
      }
    }

    // QueuedSetCommand::Run: the oldest queued set is materialized and toggled on the main thread.
    // `built` says whether the payload could be materialized.
    method RunQueued(built: bool, hint: int, onRevert: Script, onImplementation: Script)
      returns (toggle: Option<Outcome>, ghost u: State)
      requires Inv(S()) && frames == [Main] && queue != []
      modifies this
      ensures Inv(S()) && Reaches(old(S()), S()) && frames == [Main]
      ensures var s := old(S()); Reaches(DoRunQueued(s, built, hint,
                                                     First(s, s.queue[0].name, onRevert, onImplementation)), S())
      ensures toggle.Some? <==> old(queue[0].name in store) && built
      ensures toggle.None? ==> S() == old(S()).(queue := old(queue[1..]))
      ensures toggle.Some? ==>
                var n := old(queue[0].name);
                toggle.value == OutcomeOf(old(Held(RevertOf(n))) != NO_REF, old(store)[n].applied, onRevert,
                                          onImplementation) &&
                Ended(toggle.value,
                      Toggling(DoRunQueued(old(S()), built, hint, First(old(S()), n, onRevert, onImplementation)), n,
                               old(queue[0].payload), Some(Edge(old(queue[0].author), old(queue[0].plugin), n))),
                      u, S(), onRevert, onImplementation)
      ensures Grew(old(S()), S(), Declares(onRevert) + Declares(onImplementation))
      decreases Size(onRevert) + Size(onImplementation), 3
    {
      hide Inv, Core, Ledger, Reaches, Ref, Unref, BeginToggle, RefAt, Step, DoRunQueued;
      ghost var s := S();
      QueuedParts(s, built, hint);
      var q := queue[0];
      ReachesRefl(s);
      DequeueKeeps(s, s.(queue := s.queue[1..]));
      queue := queue[1..];
      ghost var s1 := S();
      QueuedStep(s, built, hint, First(s, q.name, onRevert, onImplementation));
      if q.name !in store || !built {
        ReachesRefl(s1);
        return None, s;
      }
      var outcome;
      outcome, u := ToggleQueued(q, hint, onRevert, onImplementation);
      toggle := Some(outcome);
      ReachesTransitive(s, DoRunQueued(s, built, hint, First(s, q.name, onRevert, onImplementation)), S());
    }

    // The payload is pinned in a local, and the behavior toggled to it.
    method ToggleQueued(q: QueuedSet, hint: int, onRevert: Script, onImplementation: Script)
      returns (outcome: Outcome, ghost u: State)
      requires Inv(S()) && frames == [Main] && boundaryDone && q.name in store
      modifies this
      ensures Inv(S()) && frames == [Main] && Grew(old(S()), S(), Declares(onRevert) + Declares(onImplementation))
      ensures var s := old(S());
              Reaches(BeginToggle(Ref(s, hint, q.payload, Local(0)), q.name, Some(Edge(q.author, q.plugin, q.name)),
                                  First(s, q.name, onRevert, onImplementation)), S())
      ensures outcome == OutcomeOf(old(Held(RevertOf(q.name))) != NO_REF, old(store)[q.name].applied, onRevert,
                                   onImplementation)
      ensures var s := old(S()); var e := Some(Edge(q.author, q.plugin, q.name));
              var start := BeginToggle(Ref(s, hint, q.payload, Local(0)), q.name, e,
                                       First(s, q.name, onRevert, onImplementation));
              Ended(outcome, Toggling(start, q.name, q.payload, e), u, S(), onRevert, onImplementation)
      decreases Size(onRevert) + Size(onImplementation), 2
    {
      hide Inv, Core, Ledger, Reaches, Ref, Unref, BeginToggle, RefAt, ValueAt, Ended, OutcomeOf;
      QueuedToggle(S(), hint, q.payload);
      LuaRef(hint, q.payload, Local(0));
      outcome, u := ApplyPostLoadToggle(q.name, Some(Edge(q.author, q.plugin, q.name)), onRevert, onImplementation);
    }

    // Invoke: call the function a handle reads with what the argument handles read.  `w` is the state
    // in which the function was about to leave; a result that is not nil is pinned in a fresh handle.
    method Invoke(h: nat, args: seq<nat>, hint: int, body: Script) returns (answer: Answer, ghost w: State)
      requires Inv(S()) && UserOnTop(S())
      modifies this
      ensures Inv(S()) && Reaches(old(S()), S()) && frames == old(frames) && Grew(old(S()), S(), Declares(body))
      ensures Reaches(DoInvoke(old(S()), h, args, body.Entering()), S())
      ensures !Callable(old(S()), h, args) ==> S() == old(S()) && answer == Refusal(old(S()), h, args)
      ensures Callable(old(S()), h, args) ==>
                CalledBack(DoInvoke(old(S()), h, args, body.Entering()), w, body) &&
                RanWith(w, ReadCell(old(S()), h), Arguments(old(S()), args)) &&
                var t := DoReturn(w, body.raises, body.Entering());
                if body.raises then answer == Raised && S() == t
                else if body.Result().Nil? then answer == Returned(None) && S() == t
                else answer == Returned(Some(t.nextHandle)) && t.nextHandle !in t.handles &&
                     S() == MintBuilt(t, hint, body.Result()) && Read(S(), t.nextHandle) == Ok(body.Result())
      ensures Callable(old(S()), h, args) && !body.raises && (body.callee.CFunction? || body.result.Nil?) ==>
                answer == Returned(None)
      decreases Size(body), 2
    {
      hide Inv, Reaches, DoInvoke, DoReturn, MintBuilt, Callable, Read, Refusal, FirstUnreadable;
      ghost var s := S();
      w := s;
      ReachesRefl(s);
      CallableMeans(s, h, args);
      NotCallable(s, h, args, body.Entering());
      var fn := PushHandleValue(h);
      if !fn.Ok? { return Unreadable(fn), w; }
      if !IsFunction(fn.value) { return NotAFunction, w; }
      var readable, pushed := PushArguments(args);
      if !readable.Ok? { return Unreadable(readable), w; }
      w := CallFunction(h, args, pushed, body);
      if body.raises { return Raised, w; }
      if body.Result().Nil? { return Returned(None), w; }
      ghost var t := S();
      PinnedResult(t, hint, body.Result());
      OneStep(s, t, Build(body.Result(), hint));
      OneStep(DoInvoke(s, h, args, body.Entering()), t, Build(body.Result(), hint));
      var r := MintBuiltHandle(hint, body.Result());
      return Returned(Some(r)), w;
    }

    // The call itself, from the values on the Lua stack to the return or the raise.
    method CallFunction(h: nat, ghost args: seq<nat>, pushed: seq<Value>, body: Script) returns (ghost w: State)
      requires Inv(S()) && UserOnTop(S()) && Callable(S(), h, args) && pushed == Arguments(S(), args)
      modifies this
      ensures Inv(S()) && frames == old(frames) && Grew(old(S()), S(), Declares(body))
      ensures Reaches(old(S()), S()) && Reaches(DoInvoke(old(S()), h, args, body.Entering()), S())
      ensures CalledBack(DoInvoke(old(S()), h, args, body.Entering()), w, body)
      ensures RanWith(w, ReadCell(old(S()), h), Arguments(old(S()), args))
      ensures S() == DoReturn(w, body.raises, body.Entering())
      decreases Size(body), 1
    {
      hide Inv, Ledger, Reaches, Leave, Enter, DoInvoke, DoReturn, CalledBack, Callable, ReadCell, Arguments, Read,
        RefAt;
      ghost var s := S();
      var fn := CellOf(h);
      InvokeEnters(s, h, args, body.Entering());
      frames := frames + [Calling];
      var _, u := Pcall(fn, pushed, body);
      w := u;
      InvokeReturns(s, h, args, body, u);
      frames := frames[..|frames| - 1];
    }

    // Where a readable handle's value is.
    function CellOf(h: nat): Cell
      reads this
      ensures CellOf(h) == ReadCell(S(), h)
    {
      if h in handles && handles[h].BehaviorHandle? then
        var n := handles[h].fullName;
        if Held(RecordOf(n)) != NO_REF then RecordOf(n) else DefaultOf(n)
      else HandleOf(h)
    }

    // ---- The apply boundary ----------------------------------------------------

    predicate IsPending(n: string)
      reads this
      ensures IsPending(n) <==> Pending(S(), n)
    {
      n in store && Held(RecordOf(n)) != NO_REF && !store[n].applied
    }

    // What this pass works through: set but not applied and not yet invoked, in declare order.
    method SnapshotPass(invoked: set<string>) returns (pass: seq<string>)
      requires forall n, m :: n in store && m in store && store[n].declareSeq == store[m].declareSeq ==> n == m
      ensures IsPass(S(), invoked, pass)
    {
      var left := store.Keys;
      pass := [];
      while left != {}
        invariant left <= store.Keys
        invariant forall n :: n in pass <==> IsPending(n) && n !in invoked && n !in left
        invariant InDeclareOrder(store, pass)
        decreases left
      {
        var n :| n in left;
        left := left - {n};
        if IsPending(n) && n !in invoked {
          pass := InsertInOrder(n, pass);
        }
      }
    }

    // One step of the sort by declare sequence.
    method InsertInOrder(n: string, names: seq<string>) returns (r: seq<string>)
      requires n in store && InDeclareOrder(store, names)
      requires forall m :: m in names ==> store[m].declareSeq != store[n].declareSeq
      ensures InDeclareOrder(store, r) && forall m :: m in r <==> m == n || m in names
    {
      var i := 0;
      while i < |names| && store[names[i]].declareSeq < store[n].declareSeq
        invariant i <= |names| && forall j :: 0 <= j < i ==> store[names[j]].declareSeq < store[n].declareSeq
      {
        i := i + 1;
      }
      r := names[..i] + [n] + names[i..];
      InsertedInOrder(store, n, names, i);
    }

    // The head of the pass becomes invoked and applied.
    method MarkInvoked() returns (n: string, v: Value)
      requires |frames| == 2 && frames[0] == Main && frames[1].Drain? && frames[1].pass != [] &&
               frames[1].pass[0] in store
      modifies `store, `frames, `log
      ensures S() == Invoked(old(S())) && n == old(frames[1].pass[0]) && v == ValueAt(old(S()), RecordOf(n))
    {
      var d := frames[1];
      n := d.pass[0];
      v := RawGet(RecordOf(n));
      store := store[n := store[n].(applied := true)];
      frames := [Main, Drain(d.invoked + {n}, d.pass[1..], Some(n), v, d.passNo)];
      log := log + [DrainCalled(n, v, d.passNo)] + [ImplCalled(n, v)];
    }

    // One implementation of the pass: it is marked invoked and applied, and called with its
    // record; a raise clears the record again.  The source checks the record once more before the
    // call; what a pass holds is always pending, so that check never fires.
    method InvokeNext(script: Script)
      requires Inv(S()) && Top(S()).Drain? && Top(S()).pass != []
      modifies this
      ensures Inv(S()) && Reaches(old(S()), S()) && Grew(old(S()), S(), Declares(script))
      ensures Reaches(DoDrainNext(old(S()), script.Entering()), S())
      ensures var d := old(Top(S()));
              |frames| == 2 && frames[0] == Main && frames[1].Drain? && frames[1].calling.None? &&
              frames[1].invoked == d.invoked + {d.pass[0]} && frames[1].pass == d.pass[1..]
      ensures old(Top(S()).pass[0] in store && Top(S()).pass[0] !in Top(S()).invoked)
      decreases Size(script), 2
    {
      hide Inv, Reaches, DoReturn, DoDrainNext, ResumeDrain, Leave, Core, Ledger, Enter, RefAt, ValueAt;
      ghost var s := S();
      DrainCalls1(s, script.Entering());
      ghost var e := DoDrainNext(s, script.Entering());
      var n, v := MarkInvoked();
      hide Invoked;
      var ok, u := Pcall(ImplOf(n), [v], script);
      ReturnToDrain(u, script.raises, script.Entering());
      ReturnStep(e, u, script.raises, script.Entering());
      ReachesTransitive(s, e, DoReturn(u, script.raises, script.Entering()));
      CoreLedger(S());
      EndInvocation(n, v, ok);
    }

    // The implementation the drain called has returned, or raised and lost its record.
    method EndInvocation(n: string, v: Value, ok: bool)
      requires Ledger(S()) && |frames| == 2 && frames[1].Drain? && frames[1].calling == Some(n) &&
               frames[1].callingValue == v && n in store
      modifies this
      ensures S() == ResumeDrain(old(S()), !ok) && store.Keys == old(store).Keys
      ensures frames == old(frames)[1 := old(frames)[1].(calling := None)]
    {
      hide Ledger, Unref;
      if ok {
        log := log + [ImplReturned(n, v)];
      } else {
        ClearRecordCells(S(), n);
        ClearRecord(n);
      }
      frames := frames[1 := frames[1].(calling := None)];
    }

    // One pass: every implementation of the snapshot, the k-th one running the k-th script.
    method RunPass(scripts: nat -> Script, k: nat, ghost last: nat) returns (next: nat)
      requires Settles(scripts, last)
      requires Inv(S()) && |frames| == 2 && frames[1].Drain? && frames[1].calling.None? && frames[1].pass != []
      modifies this
      ensures Inv(S()) && Reaches(old(S()), S()) && |frames| == 2 && frames[1].Drain? && frames[1].calling.None? &&
              frames[1].pass == []
      ensures DrainMeasure(S(), frames[1].invoked, scripts, next, last) < DrainMeasure(old(S()), old(frames[1].invoked),
          scripts, k, last)
    {
      hide Inv, Reaches, DrainMeasure, Settles, Grew;
      ghost var s := S();
      next := k;
      ReachesRefl(s);
      while frames[1].pass != []
        invariant Inv(S()) && Reaches(s, S()) && |frames| == 2 && frames[1].Drain? && frames[1].calling.None?
        invariant (S() == s && next == k) ||
                  DrainMeasure(S(), frames[1].invoked, scripts, next, last) < DrainMeasure(s, s.frames[1].invoked,
                      scripts, k, last)
        decreases |frames[1].pass|
      {
        ghost var t := S();
        DrainFrame(t);
        InvokeNext(scripts(next));
        ReachesTransitive(s, t, S());
        MeasureFalls(t, S(), t.frames[1].invoked, t.frames[1].pass[0], scripts, next, last);
        next := next + 1;
      }
    }

    // RunApplyBoundary: passes until a snapshot comes out empty, then the sweep.  It terminates
    // whatever the implementations do, provided that only finitely many of their calls declare.
    method RunApplyBoundary(scripts: nat -> Script, ghost last: nat)
      requires Inv(S()) && frames == [Main] && !boundaryDone && Settles(scripts, last)
      modifies this
      ensures Inv(S()) && Reaches(old(S()), S()) && frames == [Main] && boundaryDone
      ensures forall n :: n in store ==> (store[n].applied <==> Held(RecordOf(n)) != NO_REF)
    {
      hide Inv, Reaches, DrainMeasure, Settles, IsPass, Drained, Pending, Step, RefAt;
      ghost var s := S();
      ReachesRefl(s);
      OneStep(s, s, StartBoundary);
      BoundaryStarts(s);
      frames := [Main, Drain({}, [], None, Nil, 0)];
      var k := 0;
      while true
        invariant Inv(S()) && Reaches(s, S()) && |frames| == 2 && frames[1].Drain? && frames[1].calling.None? &&
                  frames[1].pass == []
        decreases DrainMeasure(S(), frames[1].invoked, scripts, k, last)
      {
        DrainFrame(S());
        var pass := SnapshotPass(frames[1].invoked);
        if pass == [] {
          EmptyPass(S());
          break;
        }
        ghost var t := S();
        OneStep(s, t, Snapshot(pass));
        SnapshotTaken(t, pass);
        frames := [Main, frames[1].(pass := pass, passNo := frames[1].passNo + 1)];
        ghost var t1 := S();
        SameMeasure(t, t1, frames[1].invoked, scripts, k, last);
        k := RunPass(scripts, k, last);
        ReachesTransitive(s, t1, S());
      }
      SweepDropped(s);
      OneStep(s, S(), FinishBoundary);
      BoundaryFinishes(S());
      frames := frames[..|frames| - 1];
      boundaryDone := true;
      RecordedIffApplied(S());
    }

    // A record pended onto a behavior whose implementation has raised is cleared.
    method SweepDropped(ghost s: State)
      requires Inv(S()) && Reaches(s, S()) && Drained(S())
      modifies this
      ensures Inv(S()) && Reaches(s, S()) && Drained(S()) && frames == old(frames) && forall n :: !Pending(S(), n)
    {
      hide Inv, Reaches, Drained, BehaviorSteps.ClearRecord, Step, RefAt;
      var left := store.Keys;
      while left != {}
        invariant left <= store.Keys && Inv(S()) && Reaches(s, S()) && Drained(S()) && frames == old(frames)
        invariant forall n :: Pending(S(), n) ==> n in left
        decreases left
      {
        var n :| n in left;
        left := left - {n};
        if IsPending(n) {
          SweptOne(S(), n);
          OneStep(s, S(), SweepOne(n));
          ClearRecord(n);
        }
      }
    }
  }
}
