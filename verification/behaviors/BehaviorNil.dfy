/**
 When get() answers nil.  The verbs test a handle for "no reference" only, and the nil reference is
 one; so a handle that reads nil is taken as a value by a declare, by a load-window set and by a
 toggle.  These three are the only ways: a run answers nil at some point exactly when one of its
 events is of this kind, and none is while no declare and no set is given a handle that reads nil.
 */
module BehaviorNil {
  import opened Options
  import opened RefLedger
  import opened BehaviorSteps
  import opened BehaviorEffects
  import opened BehaviorInvariant
  import opened BehaviorPreservation
  import opened BehaviorRuns
  import opened BehaviorTheorems
  import opened BehaviorScripts
  import opened BehaviorDispositions

  // Not the nil reference.
  predicate Fine(r: int) {
    r == NO_REF || r >= 0
  }

  // The cells get() answers from and, if `deep`, the new values of toggles on their way there.
  predicate Tracked(c: Cell, deep: bool) {
    c.DefaultOf? || c.RecordOf? || (deep && c.FrameOf?)
  }

  ghost predicate NilFree(s: State, deep: bool) {
    forall c :: Tracked(c, deep) ==> Fine(RefAt(s, c))
  }

  // With exact references a cell holds the nil reference exactly when it holds nil.
  lemma FineMeans(s: State, c: Cell)
    requires Ledger(s) && RefAt(s, c) != NO_REF
    ensures Fine(RefAt(s, c)) <==> ValueAt(s, c).Obj?
  {}

  // ---- The registry operations -----------------------------------------------

  lemma RefNil(s: State, hint: int, v: Value, c: Cell, deep: bool)
    ensures var t := Ref(s, hint, v, c);
            (Fine(RefAt(t, c)) <==> v.Obj?) && (forall d :: d != c ==> RefAt(t, d) == RefAt(s, d)) &&
            (NilFree(s, deep) && (v.Obj? || !Tracked(c, deep)) ==> NilFree(t, deep))
  {}

  lemma UnrefNil(s: State, c: Cell, deep: bool)
    ensures var t := Unref(s, c);
            (forall d :: d != c ==> RefAt(t, d) == RefAt(s, d)) && (NilFree(s, deep) ==> NilFree(t, deep))
  {}

  lemma MoveNil(s: State, c: Cell, d: Cell, deep: bool)
    requires c != d
    ensures var t := Move(s, c, d);
            RefAt(t, d) == RefAt(s, c) && (forall e :: e != c && e != d ==> RefAt(t, e) == RefAt(s, e)) &&
            (NilFree(s, deep) && (Fine(RefAt(s, c)) || !Tracked(d, deep)) ==> NilFree(t, deep))
  {}

  lemma SameRefsNil(s: State, t: State, deep: bool)
    requires NilFree(s, deep) && t.refs == s.refs
    ensures NilFree(t, deep)
  {}

  lemma MintBuiltNil(s: State, hint: int, v: Value, deep: bool)
    ensures var t := MintBuilt(s, hint, v);
            (forall c: Cell :: !c.HandleOf? ==> RefAt(t, c) == RefAt(s, c)) && (NilFree(s, deep) ==> NilFree(t, deep))
  {
    hide Ref;
    var h := s.nextHandle;
    RefNil(s.(handles := s.handles[h := BuiltHandle(false)], nextHandle := h + 1), hint, v, HandleOf(h), deep);
  }

  lemma EnterNil(s: State, fn: Cell, args: seq<Value>, e: Entering, deep: bool)
    requires NilFree(s, deep)
    ensures NilFree(Enter(s, fn, args, e), deep)
  {
    hide MintBuilt;
    MintBuiltNil(Touch(s, RefAt(s, fn)), e.hint, FirstOf(args), deep);
  }

  lemma ClearRecordNil(s: State, n: string, deep: bool)
    requires NilFree(s, deep) && n in s.store
    ensures NilFree(ClearRecord(s, n), deep)
  {
    hide Unref;
    UnrefNil(s, RecordOf(n), deep);
  }

  // The reference in cell c takes the place of n's record.
  lemma RecordNil(s: State, n: string, c: Cell, deep: bool)
    requires NilFree(s, deep) && c != RecordOf(n) && Fine(RefAt(s, c))
    ensures NilFree(Move(ReleaseRecord(s, n), c, RecordOf(n)), deep)
  {
    hide Unref, Move;
    UnrefNil(s, RecordOf(n), deep);
    MoveNil(ReleaseRecord(s, n), c, RecordOf(n), deep);
  }

  // The pinned value is the one the handle reads.
  lemma PinNil(s: State, h: nat, hint: int, deep: bool)
    requires BuiltValue(s, h)
    ensures var t := Pin(s, h, hint);
            (Fine(RefAt(t, Local(0))) <==> Read(s, h) != Ok(Nil)) && (NilFree(s, deep) ==> NilFree(t, deep)) &&
            t.store == s.store && t.boundaryDone == s.boundaryDone && t.frames == s.frames
  {
    hide Ref, Unref, Deref;
    RefNil(s, hint, ValueAt(s, HandleOf(h)), Local(0), deep);
    UnrefNil(Ref(s, hint, ValueAt(s, HandleOf(h)), Local(0)), HandleOf(h), deep);
  }

  // ---- The verbs -------------------------------------------------------------

  lemma BeginToggleNil(s: State, n: string, queuedBy: Option<Edge>, e: Entering, deep: bool)
    requires NilFree(s, deep) && n in s.store && (deep ==> Fine(RefAt(s, Local(0))))
    ensures NilFree(BeginToggle(s, n, queuedBy, e), deep)
  {
    hide NilFree, Unref, Move, Enter, Deref;
    UnrefNil(s, Local(0), deep);
    var s1 := Push(s, Toggle(n, Reverting(ValueAt(s, Local(0))), queuedBy));
    SameRefsNil(s, s1, deep);
    MoveNil(s1, Local(0), FrameOf(|s.frames|), deep);
    var s2 := Move(s1, Local(0), FrameOf(|s.frames|));
    CallRevertNil(s2, n, e, deep);
    CallImplementationNil(s2, e, deep);
  }

  lemma CallRevertNil(s: State, n: string, e: Entering, deep: bool)
    requires n in s.store
    ensures NilFree(s, deep) ==> NilFree(CallRevert(s, n, e), deep)
  {
    hide NilFree, Enter, Deref;
    if NilFree(s, deep) {
      var s1 := Log(Touch(s, RefAt(s, RecordOf(n))), RevertCalled(n, ValueAt(s, RecordOf(n))));
      SameRefsNil(s, s1, deep);
      EnterNil(s1, RevertOf(n), [ValueAt(s, RecordOf(n))], e, deep);
    }
  }

  lemma CallImplementationNil(s: State, e: Entering, deep: bool)
    requires s.frames != [] && Top(s).Toggle?
    ensures NilFree(s, deep) ==> NilFree(CallImplementation(s, e), deep)
  {
    hide NilFree, Enter, Deref;
    if NilFree(s, deep) {
      var Toggle(n, _, queuedBy) := Top(s);
      var v := ValueAt(s, FrameOf(|s.frames| - 1));
      var s1 := Log(SetTop(s, Toggle(n, Implementing(v), queuedBy)), ImplCalled(n, v));
      SameRefsNil(s, s1, deep);
      EnterNil(s1, ImplOf(n), [v], e, deep);
    }
  }

  lemma SetNil(s: State, n: string, h: nat, author: string, plugin: string, earlyStop: bool, hint: int, e: Entering,
               deep: bool)
    requires NilFree(s, deep)
    requires BuiltValue(s, h) && Read(s, h) == Ok(Nil) ==>
               !deep && n in s.store && (s.boundaryDone || s.store[n].applied)
    ensures NilFree(DoSet(s, n, h, author, plugin, earlyStop, hint, e), deep)
  {
    hide NilFree, Pin, BeginToggle, Move, ReleaseRecord, RecordEdge, BuiltValue, Read;
    if BuiltValue(s, h) && n in s.store {
      PinNil(s, h, hint, deep);
      var s1 := Pin(s, h, hint);
      if s1.boundaryDone || s1.store[n].applied {
        BeginToggleNil(s1, n, None, e, deep);
      } else {
        RecordNil(s1, n, Local(0), deep);
        var s2 := RecordLoadSet(s1, n, author, plugin);
        SameRefsNil(Move(ReleaseRecord(s1, n), Local(0), RecordOf(n)), s2, deep);
        EdgeNil(s2, Edge(author, plugin, n), deep);
      }
    }
  }

  lemma EdgeNil(s: State, e: Edge, deep: bool)
    requires NilFree(s, deep)
    ensures NilFree(RecordEdge(s, e), deep)
  {}

  lemma DeclareNil(s: State, n: string, tier: Tier, h: nat, hasRevert: bool, d: int, i: int, r: int, deep: bool)
    requires NilFree(s, deep) && (BuiltValue(s, h) && Read(s, h) == Ok(Nil) ==> n in s.store)
    ensures NilFree(DoDeclare(s, n, tier, h, hasRevert, d, i, r), deep)
  {
    hide NilFree, Pin, Trampolines, Adopt, Unref, BuiltValue, Read;
    if BuiltValue(s, h) {
      PinNil(s, h, d, deep);
      var s1 := Pin(s, h, d);
      TrampolinesNil(s1, hasRevert, i, r, deep);
      var s2 := Trampolines(s1, hasRevert, i, r);
      UnrefNil(s2, Local(0), deep);
      UnrefNil(Unref(s2, Local(0)), Local(1), deep);
      UnrefNil(Unref(Unref(s2, Local(0)), Local(1)), Local(2), deep);
      if n !in s.store { AdoptNil(s2, n, tier, deep); }
    }
  }

  lemma TrampolinesNil(s: State, hasRevert: bool, i: int, r: int, deep: bool)
    requires NilFree(s, deep)
    ensures var t := Trampolines(s, hasRevert, i, r); NilFree(t, deep) && RefAt(t, Local(0)) == RefAt(s, Local(0))
  {
    hide NilFree, Ref, RefAt;
    RefNil(s, i, IMPL_TRAMPOLINE, Local(1), deep);
    RefNil(Ref(s, i, IMPL_TRAMPOLINE, Local(1)), r, REVERT_TRAMPOLINE, Local(2), deep);
  }

  lemma AdoptNil(s: State, n: string, tier: Tier, deep: bool)
    requires NilFree(s, deep) && Fine(RefAt(s, Local(0)))
    ensures NilFree(Adopt(s, n, tier), deep)
  {
    hide NilFree, Move;
    var s1 := WithBehavior(s, n, Behavior(tier, false, "", "", s.nextSeq + 1, 1)).(nextSeq := s.nextSeq + 1);
    SameRefsNil(s, s1, deep);
    AdoptMovesNil(s1, n, deep);
  }

  lemma AdoptMovesNil(s: State, n: string, deep: bool)
    requires NilFree(s, deep) && Fine(RefAt(s, Local(0)))
    ensures NilFree(Move(Move(Move(s, Local(0), DefaultOf(n)), Local(1), ImplOf(n)), Local(2), RevertOf(n)), deep)
  {
    hide NilFree, Move, RefAt;
    MoveNil(s, Local(0), DefaultOf(n), deep);
    var s1 := Move(s, Local(0), DefaultOf(n));
    MoveNil(s1, Local(1), ImplOf(n), deep);
    MoveNil(Move(s1, Local(1), ImplOf(n)), Local(2), RevertOf(n), deep);
  }

  lemma ReturnNil(s: State, raised: bool, e: Entering, deep: bool)
    requires Inv(s) && NilFree(s, deep) && !PutsNil(s, Return(raised, e))
    ensures NilFree(DoReturn(s, raised, e), deep)
  {
    hide Inv, NilFree, Leave, ResumeToggle, ResumeDrain, RefAt, Deref;
    if s.frames != [] && Top(s).User? {
      LeaveNil(s, raised, deep);
      var t := Leave(s, raised);
      if t.frames != [] && Top(t).Drain? { ResumeDrainNil(t, raised, deep); }
      if t.frames != [] && Top(t).Calling? { SameRefsNil(t, Pop(t), deep); }
      if t.frames != [] && Top(t).Toggle? && Top(t).name in t.store {
        Resumed(s, raised, e);
        ResumeToggleNil(t, raised, e, deep);
      }
    }
  }

  lemma LeaveNil(s: State, raised: bool, deep: bool)
    requires NilFree(s, deep) && s.frames != [] && Top(s).User?
    ensures var t := Leave(s, raised); NilFree(t, deep) && t.frames == s.frames[..|s.frames| - 1]
  {
    hide NilFree, Unref;
    SameRefsNil(s, Pop(s), deep);
    if Top(s).transient.Some? {
      UnrefNil(Pop(s), HandleOf(Top(s).transient.value), deep);
      SameRefsNil(Unref(Pop(s), HandleOf(Top(s).transient.value)), ReleaseTransient(Pop(s), Top(s).transient.value),
                  deep);
    }
  }

  lemma ResumeDrainNil(s: State, raised: bool, deep: bool)
    requires NilFree(s, deep) && s.frames != [] && Top(s).Drain?
    ensures NilFree(ResumeDrain(s, raised), deep)
  {
    hide NilFree, Unref;
    if Top(s).calling.Some? && Top(s).calling.value in s.store {
      var n := Top(s).calling.value;
      if raised { ClearRecordNil(s, n, deep); }
      var s1 := if raised then ClearRecord(s, n) else Log(s, ImplReturned(n, Top(s).callingValue));
      SameRefsNil(if raised then s1 else s, ResumeDrain(s, raised), deep);
    }
  }

  lemma ResumeToggleNil(s: State, raised: bool, e: Entering, deep: bool)
    requires Ledger(s) && NilFree(s, deep) && s.frames != [] && Top(s).Toggle? && Top(s).name in s.store
    requires var c := FrameOf(|s.frames| - 1); RefAt(s, c) != NO_REF && ValueAt(s, c) == Top(s).stage.value
    requires Top(s).stage.Implementing? && !raised ==> Top(s).stage.value.Obj?
    ensures NilFree(ResumeToggle(s, raised, e), deep)
  {
    hide Ledger, NilFree, Unref, Move, Enter, CallImplementation, ReleaseRecord, RecordEdge, RefAt, Deref;
    var c := FrameOf(|s.frames| - 1);
    FineMeans(s, c);
    CallImplementationNil(s, e, deep);
    UnrefNil(s, c, deep);
    if NilFree(Unref(s, c), deep) { SameRefsNil(Unref(s, c), DropToggle(s), deep); }
    if raised { ClearRecordNil(DropToggle(s), Top(s).name, deep); }
    if Top(s).stage.Implementing? && !raised {
      CommitNil(s, deep);
    }
  }

  lemma CommitNil(s: State, deep: bool)
    requires NilFree(s, deep) && s.frames != [] && Top(s).Toggle? && Top(s).stage.Implementing? &&
             Top(s).name in s.store
    requires Fine(RefAt(s, FrameOf(|s.frames| - 1)))
    ensures NilFree(CommitToggle(Log(s, ImplReturned(Top(s).name, Top(s).stage.value))), deep)
  {
    hide NilFree, Move, ReleaseRecord, RecordEdge;
    var n, v := Top(s).name, Top(s).stage.value;
    var s1 := Log(s, ImplReturned(n, v));
    SameRefsNil(s, s1, deep);
    RecordNil(s1, n, FrameOf(|s.frames| - 1), deep);
    var s2 := Move(ReleaseRecord(s1, n), FrameOf(|s.frames| - 1), RecordOf(n));
    var b := s1.store[n];
    var s3 := Pop(WithBehavior(s2, n, b.(applied := true, valueGeneration := b.valueGeneration + 1)));
    SameRefsNil(s2, s3, deep);
    if Top(s).queuedBy.Some? { EdgeNil(s3, Top(s).queuedBy.value, deep); }
  }

  lemma InvokeNil(s: State, h: nat, args: seq<nat>, e: Entering, deep: bool)
    requires NilFree(s, deep)
    ensures NilFree(DoInvoke(s, h, args, e), deep)
  {
    hide NilFree, Enter, Callable, ReadCell, Arguments;
    SameRefsNil(s, Push(s, Calling), deep);
    EnterNil(Push(s, Calling), ReadCell(s, h), Arguments(s, args), e, deep);
  }

  lemma RunQueuedNil(s: State, built: bool, hint: int, e: Entering, deep: bool)
    requires NilFree(s, deep) && (deep && s.queue != [] ==> s.queue[0].payload.Obj?)
    ensures NilFree(DoRunQueued(s, built, hint, e), deep)
  {
    hide NilFree, Ref, BeginToggle;
    if s.queue != [] {
      var q := s.queue[0];
      var s1 := s.(queue := s.queue[1..]);
      SameRefsNil(s, s1, deep);
      RefNil(s1, hint, q.payload, Local(0), deep);
      if q.name in s1.store {
        BeginToggleNil(Ref(s1, hint, q.payload, Local(0)), q.name, Some(Edge(q.author, q.plugin, q.name)), e, deep);
      }
    }
  }

  lemma DrainNil(s: State, e: Entering, deep: bool)
    requires NilFree(s, deep)
    ensures NilFree(DoDrainNext(s, e), deep)
  {
    hide NilFree, Enter, Pending, Deref;
    if s.frames != [] && Top(s).Drain? && Top(s).pass != [] {
      var n := Top(s).pass[0];
      PendingKnown(s, n);
      if Pending(s, n) {
        DrainNextNil(s, n, e, deep);
      } else {
        SameRefsNil(s, DoDrainNext(s, e), deep);
      }
    }
  }

  lemma PendingKnown(s: State, n: string)
    ensures Pending(s, n) ==> n in s.store
  {}

  lemma DrainNextNil(s: State, n: string, e: Entering, deep: bool)
    requires NilFree(s, deep) && s.frames != [] && Top(s).Drain? && Top(s).pass != [] && n == Top(s).pass[0] &&
             Pending(s, n)
    ensures NilFree(DoDrainNext(s, e), deep)
  {
    hide NilFree, Enter, Deref;
    var d, v := Top(s), ValueAt(s, RecordOf(n));
    var s1 := Touch(WithBehavior(s, n, s.store[n].(applied := true)), RefAt(s, RecordOf(n)));
    var s2 := SetTop(s1, Drain(d.invoked + {n}, d.pass[1..], Some(n), v, d.passNo));
    var s3 := Log(Log(s2, DrainCalled(n, v, d.passNo)), ImplCalled(n, v));
    SameRefsNil(s, s3, deep);
    EnterNil(s3, ImplOf(n), [v], e, deep);
  }

  lemma BoundaryNil(s: State, e: Event, deep: bool)
    requires NilFree(s, deep) && (e.StartBoundary? || e.Snapshot? || e.SweepOne? || e.FinishBoundary? || e.Stage? ||
                                  e.QueueSet? || e.Get?)
    ensures NilFree(Step(s, e), deep)
  {
    hide NilFree, IsPass, Pending, ClearRecord;
    if e.SweepOne? {
      PendingKnown(s, e.n);
      if e.n in s.store { ClearRecordNil(s, e.n, deep); }
    } else {
      SameRefsNil(s, Step(s, e), deep);
    }
  }

  lemma ConsumeNil(s: State, h: nat, deep: bool)
    requires NilFree(s, deep)
    ensures NilFree(DoConsumeChild(s, h), deep)
  {
    hide NilFree, Unref, BuiltValue;
    UnrefNil(s, HandleOf(h), deep);
    if BuiltValue(s, h) { SameRefsNil(Unref(s, HandleOf(h)), DoConsumeChild(s, h), deep); }
  }

  // ---- One step --------------------------------------------------------------

  // The event makes get() answer nil: a declare, or a load-window set, that is accepted with a handle
  // that reads nil, or the return of an implementation that was called with nil by a toggle.
  predicate PutsNil(s: State, e: Event) {
    match e
    case Declare(n, _, h, _, _, _, _) =>
      UserOnTop(s) && !s.boundaryDone && BuiltValue(s, h) && n !in s.store && Read(s, h) == Ok(Nil)
    case Set(n, h, _, _, earlyStop, _, _) =>
      UserOnTop(s) && BuiltValue(s, h) && n in s.store && !(s.store[n].tier.Plugin? && earlyStop) &&
      !s.boundaryDone && !s.store[n].applied && Read(s, h) == Ok(Nil)
    case Return(raised, _) =>
      !raised && |s.frames| > 1 && Top(s).User? && s.frames[|s.frames| - 2].Toggle? &&
      s.frames[|s.frames| - 2].stage == Implementing(Nil)
    case _ => false
  }

  // A declare or set is handed nil.
  predicate HandsNil(s: State, e: Event) {
    (e.Declare? || e.Set?) && Read(s, e.h) == Ok(Nil)
  }

  // What waits off the thread is never nil: the builders there refuse it.
  ghost predicate QueueFine(s: State) {
    (forall i :: 0 <= i < |s.queue| ==> s.queue[i].payload.Obj?) &&
    (forall h :: h in s.handles && s.handles[h].StagedHandle? ==> s.handles[h].payload.Obj?)
  }

  // A step leaves get() clear of nil unless it puts nil there.
  lemma StepNil(s: State, e: Event, deep: bool)
    requires Inv(s) && NilFree(s, deep) && !PutsNil(s, e)
    requires deep ==> QueueFine(s) && !HandsNil(s, e)
    ensures NilFree(Step(s, e), deep)
  {
    hide Inv, NilFree, MintBuilt, DoConsumeChild, DoDeclare, DoSet, DoInvoke, DoReturn, DoRunQueued, DoDrainNext,
      BuiltValue, Read;
    match e {
      case Build(v, hint) => MintBuiltNil(s, hint, v, deep);
      case ConsumeChild(h) => ConsumeNil(s, h, deep);
      case Declare(n, tier, h, hasRevert, d, i, r) =>
        if UserOnTop(s) && !s.boundaryDone { DeclareNil(s, n, tier, h, hasRevert, d, i, r, deep); }
        if s.boundaryDone { DeclareTooLate(s, n, tier, h, hasRevert, d, i, r); }
      case Set(n, h, author, plugin, earlyStop, hint, entering) =>
        if UserOnTop(s) { SetStepNil(s, e, deep); }
      case Invoke(h, args, entering) => InvokeNil(s, h, args, entering, deep);
      case Return(raised, entering) => ReturnNil(s, raised, entering, deep);
      case RunQueued(built, hint, entering) => RunQueuedNil(s, built, hint, entering, deep);
      case DrainNext(entering) => DrainNil(s, entering, deep);
      case _ => BoundaryNil(s, e, deep);
    }
  }

  lemma DeclareTooLate(s: State, n: string, tier: Tier, h: nat, hasRevert: bool, d: int, i: int, r: int)
    requires s.boundaryDone
    ensures DoDeclare(s, n, tier, h, hasRevert, d, i, r) == s
  {}

  // A set that is turned down does nothing.
  lemma SetStepNil(s: State, e: Event, deep: bool)
    requires NilFree(s, deep) && e.Set? && UserOnTop(s) && !PutsNil(s, e) && (deep ==> !HandsNil(s, e))
    ensures NilFree(DoSet(s, e.n, e.h, e.author, e.plugin, e.earlyStop, e.hint, e.entering), deep)
  {
    hide NilFree, Pin, BeginToggle, RecordLoadSet, BuiltValue, Read;
    if BuiltValue(s, e.h) && e.n in s.store && !(s.store[e.n].tier.Plugin? && e.earlyStop) {
      SetNil(s, e.n, e.h, e.author, e.plugin, e.earlyStop, e.hint, e.entering, deep);
    }
  }

  // ---- The queue -------------------------------------------------------------

  // The queue is as it was, and staged handles are old ones.
  ghost predicate SameQueue(s: State, t: State) {
    t.queue == s.queue &&
    forall h :: h in t.handles && t.handles[h].StagedHandle? ==> h in s.handles && s.handles[h] == t.handles[h]
  }

  lemma SameQueueKeeps(s: State, t: State)
    requires QueueFine(s) && SameQueue(s, t)
    ensures QueueFine(t)
  {}

  lemma MintBuiltQueue(s: State, hint: int, v: Value)
    ensures SameQueue(s, MintBuilt(s, hint, v))
  {
    hide Ref;
  }

  lemma EnterQueue(s: State, fn: Cell, args: seq<Value>, e: Entering)
    ensures SameQueue(s, Enter(s, fn, args, e))
  {
    hide Ref;
  }

  lemma VerbsQueue(s: State, h: nat, n: string, hint: int)
    ensures SameQueue(s, DoConsumeChild(s, h)) && SameQueue(s, DoGet(s, n))
    ensures BuiltValue(s, h) ==> SameQueue(s, Pin(s, h, hint))
  {
    hide Ref, Unref, RefAt, ValueAt;
  }

  lemma BeginToggleQueue(s: State, n: string, queuedBy: Option<Edge>, e: Entering)
    requires n in s.store
    ensures SameQueue(s, BeginToggle(s, n, queuedBy, e))
  {
    hide Unref, Move, Enter, RefAt, ValueAt;
    if RefAt(s, RevertOf(n)) != NO_REF {
      var i := |s.frames|;
      var s1 := Move(Push(s, Toggle(n, Reverting(ValueAt(s, Local(0))), queuedBy)), Local(0), FrameOf(i));
      var v := ValueAt(s1, RecordOf(n));
      EnterQueue(Log(Touch(s1, RefAt(s1, RecordOf(n))), RevertCalled(n, v)), RevertOf(n), [v], e);
      CallImplementationQueue(s1, e);
    }
  }

  lemma CallImplementationQueue(s: State, e: Entering)
    requires s.frames != [] && Top(s).Toggle?
    ensures SameQueue(s, CallImplementation(s, e))
  {
    hide Enter, ValueAt;
    var Toggle(n, _, queuedBy) := Top(s);
    var v := ValueAt(s, FrameOf(|s.frames| - 1));
    EnterQueue(Log(SetTop(s, Toggle(n, Implementing(v), queuedBy)), ImplCalled(n, v)), ImplOf(n), [v], e);
  }

  lemma SetQueue(s: State, n: string, h: nat, author: string, plugin: string, earlyStop: bool, hint: int, e: Entering)
    ensures SameQueue(s, DoSet(s, n, h, author, plugin, earlyStop, hint, e))
  {
    hide Ref, Unref, Move, Pin, BeginToggle, RefAt, ValueAt, BuiltValue;
    if BuiltValue(s, h) && n in s.store {
      VerbsQueue(s, h, n, hint);
      PinNil(s, h, hint, false);
      BeginToggleQueue(Pin(s, h, hint), n, None, e);
    }
  }

  lemma DeclareQueue(s: State, n: string, tier: Tier, h: nat, hasRevert: bool, d: int, i: int, r: int)
    ensures SameQueue(s, DoDeclare(s, n, tier, h, hasRevert, d, i, r))
  {
    hide Ref, Unref, Move, Pin, RefAt, ValueAt, BuiltValue;
    if BuiltValue(s, h) { VerbsQueue(s, h, n, d); }
  }

  lemma ReturnQueue(s: State, raised: bool, e: Entering)
    ensures SameQueue(s, DoReturn(s, raised, e))
  {
    hide Leave, ResumeToggle, ResumeDrain;
    if s.frames != [] && Top(s).User? {
      LeaveQueue(s, raised);
      var t := Leave(s, raised);
      if t.frames != [] && Top(t).Toggle? && Top(t).name in t.store { ResumeToggleQueue(t, raised, e); }
      if t.frames != [] && Top(t).Drain? { ResumeDrainQueue(t, raised); }
    }
  }

  lemma ResumeToggleQueue(s: State, raised: bool, e: Entering)
    requires s.frames != [] && Top(s).Toggle? && Top(s).name in s.store
    ensures SameQueue(s, ResumeToggle(s, raised, e))
  {
    hide Unref, Move, ReleaseRecord, CallImplementation, RefAt, ValueAt;
    CallImplementationQueue(s, e);
  }

  lemma ResumeDrainQueue(s: State, raised: bool)
    requires s.frames != [] && Top(s).Drain?
    ensures SameQueue(s, ResumeDrain(s, raised))
  {
    hide Unref, RefAt, ValueAt;
  }

  lemma LeaveQueue(s: State, raised: bool)
    requires s.frames != [] && Top(s).User?
    ensures SameQueue(s, Leave(s, raised))
  {
    hide Unref;
  }

  lemma InvokeQueue(s: State, h: nat, args: seq<nat>, e: Entering)
    ensures SameQueue(s, DoInvoke(s, h, args, e))
  {
    hide Enter, Callable, ReadCell, Arguments;
    EnterQueue(Push(s, Calling), ReadCell(s, h), Arguments(s, args), e);
  }

  lemma DrainQueue(s: State, e: Event)
    requires e.DrainNext? || e.StartBoundary? || e.Snapshot? || e.SweepOne? || e.FinishBoundary?
    ensures SameQueue(s, Step(s, e))
  {
    hide DoDrainNext, IsPass, Drained, Unref, RefAt, ValueAt;
    if e.DrainNext? { DrainNextQueue(s, e.entering); }
  }

  lemma DrainNextQueue(s: State, e: Entering)
    ensures SameQueue(s, DoDrainNext(s, e))
  {
    hide Enter, Pending, ValueAt;
    if s.frames != [] && Top(s).Drain? && Top(s).pass != [] && Pending(s, Top(s).pass[0]) {
      var d, n := Top(s), Top(s).pass[0];
      PendingKnown(s, n);
      var v := ValueAt(s, RecordOf(n));
      var s1 := Touch(WithBehavior(s, n, s.store[n].(applied := true)), RefAt(s, RecordOf(n)));
      var s2 := SetTop(s1, Drain(d.invoked + {n}, d.pass[1..], Some(n), v, d.passNo));
      EnterQueue(Log(Log(s2, DrainCalled(n, v, d.passNo)), ImplCalled(n, v)), ImplOf(n), [v], e);
    }
  }

  lemma RunQueuedQueue(s: State, built: bool, hint: int, e: Entering)
    requires QueueFine(s)
    ensures QueueFine(DoRunQueued(s, built, hint, e))
  {
    hide Ref, BeginToggle;
    if s.queue != [] {
      var q, s1 := s.queue[0], s.(queue := s.queue[1..]);
      var s2 := Ref(s1, hint, q.payload, Local(0));
      if q.name in s.store { BeginToggleQueue(s2, q.name, Some(Edge(q.author, q.plugin, q.name)), e); }
    }
  }

  lemma StagingQueue(s: State, e: Event)
    requires QueueFine(s) && (e.Stage? || e.QueueSet?)
    ensures QueueFine(Step(s, e))
  {}

  lemma StepQueue(s: State, e: Event)
    requires QueueFine(s)
    ensures QueueFine(Step(s, e))
  {
    hide QueueFine, SameQueue, MintBuilt, DoConsumeChild, DoGet, DoDeclare, DoSet, DoInvoke, DoReturn, DoRunQueued;
    if e.Stage? || e.QueueSet? {
      StagingQueue(s, e);
    } else if e.RunQueued? {
      RunQueuedQueue(s, e.built, e.hint, e.entering);
    } else {
      match e {
        case Build(v, hint) => MintBuiltQueue(s, hint, v);
        case ConsumeChild(h) => VerbsQueue(s, h, "", 0);
        case Get(n) => VerbsQueue(s, 0, n, 0);
        case Declare(n, tier, h, hasRevert, d, i, r) => DeclareQueue(s, n, tier, h, hasRevert, d, i, r);
        case Set(n, h, author, plugin, earlyStop, hint, entering) =>
          SetQueue(s, n, h, author, plugin, earlyStop, hint, entering);
        case Invoke(h, args, entering) => InvokeQueue(s, h, args, entering);
        case Return(raised, entering) => ReturnQueue(s, raised, entering);
        case _ => DrainQueue(s, e);
      }
      SameQueueRefl(s);
      SameQueueKeeps(s, Step(s, e));
    }
  }

  lemma SameQueueRefl(s: State)
    ensures SameQueue(s, s)
  {}

  // ---- What a declare, a set and a toggle make get() answer -------------------

  // An accepted declare makes get() answer exactly the value its handle reads.
  lemma DeclareAnswers(events: seq<Event>, n: string, tier: Tier, h: nat, hasRevert: bool, d: int, i: int, r: int)
    requires var s := Reached(events); UserOnTop(s) && !s.boundaryDone && BuiltValue(s, h) && n !in s.store
    ensures var s := Reached(events); var t := Step(s, Declare(n, tier, h, hasRevert, d, i, r));
            n in t.store && RefAt(t, RecordOf(n)) == NO_REF && Read(s, h).Ok? &&
            CurrentValue(t, n) == Read(s, h).value && (CurrentValue(t, n).Nil? <==> Read(s, h) == Ok(Nil)) &&
            (RefAt(t, RevertOf(n)) != NO_REF <==> hasRevert) && ValueAt(t, ImplOf(n)) == IMPL_TRAMPOLINE &&
            (hasRevert ==> ValueAt(t, RevertOf(n)) == REVERT_TRAMPOLINE)
  {
    hide Inv, Reached, DoDeclare;
    ReachedInv(events);
    DeclaredValue(Reached(events), n, tier, h, hasRevert, d, i, r);
  }

  lemma DeclaredValue(s: State, n: string, tier: Tier, h: nat, hasRevert: bool, d: int, i: int, r: int)
    requires Inv(s) && UserOnTop(s) && !s.boundaryDone && BuiltValue(s, h) && n !in s.store
    ensures var t := DoDeclare(s, n, tier, h, hasRevert, d, i, r);
            n in t.store && RefAt(t, RecordOf(n)) == NO_REF && Read(s, h).Ok? &&
            CurrentValue(t, n) == Read(s, h).value &&
            t.store == s.store[n := Behavior(tier, false, "", "", s.nextSeq + 1, 1)] && t.frames == s.frames &&
            t.log == s.log &&
            t.boundaryDone == s.boundaryDone && (forall m :: RefAt(t, RecordOf(m)) == RefAt(s, RecordOf(m))) &&
            (RefAt(t, RevertOf(n)) != NO_REF <==> hasRevert) &&
            ValueAt(t, ImplOf(n)) == IMPL_TRAMPOLINE && (hasRevert ==> ValueAt(t, RevertOf(n)) == REVERT_TRAMPOLINE)
  {
    hide Ledger, Placed, Stack, Truth, Fresh, History, Pin, Trampolines, Adopt, BuiltValue, RefAt, ValueAt;
    PinCells(s, h, d);
    var s1 := Pin(s, h, d);
    TrampolinesCells(s1, hasRevert, i, r);
    assert RefAt(s, DefaultOf(n)) == NO_REF && RefAt(s, ImplOf(n)) == NO_REF && RefAt(s, RevertOf(n)) == NO_REF &&
           RefAt(s, RecordOf(n)) == NO_REF by { NoCells(s, n); }
    AdoptCells(Trampolines(s1, hasRevert, i, r), n, tier);
    BuiltReads(s, h);
  }

  lemma NoCells(s: State, n: string)
    requires Inv(s) && n !in s.store
    ensures RefAt(s, DefaultOf(n)) == NO_REF && RefAt(s, ImplOf(n)) == NO_REF && RefAt(s, RevertOf(n)) == NO_REF
    ensures RefAt(s, RecordOf(n)) == NO_REF
  {
    hide Ledger, Stack, Truth, Fresh, History;
    NoCellsYet(s, n);
  }

  // An accepted load-window set makes get() answer exactly the value its handle reads, so get()
  // answers nil if and only if the handle reads nil: the "no reference" test the verbs make does
  // not catch the nil reference.
  lemma LoadSetRecords(events: seq<Event>, n: string, h: nat, author: string, plugin: string, earlyStop: bool,
                       hint: int, e: Entering)
    requires var s := Reached(events);
             UserOnTop(s) && BuiltValue(s, h) && n in s.store && !s.boundaryDone && !s.store[n].applied &&
             !(s.store[n].tier.Plugin? && earlyStop)
    ensures var s := Reached(events); var t := Step(s, Set(n, h, author, plugin, earlyStop, hint, e));
            Read(s, h).Ok? && CurrentValue(t, n) == Read(s, h).value && RefAt(t, RecordOf(n)) != NO_REF &&
            n in t.store && !t.store[n].applied && (CurrentValue(t, n).Nil? <==> Read(s, h) == Ok(Nil))
  {
    hide Inv, Reached, DoSet, BuiltValue;
    ReachedInv(events);
    LoadSetValue(Reached(events), n, h, author, plugin, earlyStop, hint, e);
  }

  lemma LoadSetValue(s: State, n: string, h: nat, author: string, plugin: string, earlyStop: bool, hint: int,
                     e: Entering)
    requires Inv(s) && UserOnTop(s) && BuiltValue(s, h) && n in s.store && !s.boundaryDone && !s.store[n].applied
    requires !(s.store[n].tier.Plugin? && earlyStop)
    ensures var t := DoSet(s, n, h, author, plugin, earlyStop, hint, e);
            Read(s, h).Ok? && CurrentValue(t, n) == Read(s, h).value && RefAt(t, RecordOf(n)) != NO_REF &&
            t.store == s.store[n := s.store[n].(setterAuthor := author, setterPlugin := plugin,
                                                valueGeneration := s.store[n].valueGeneration + 1)] &&
            t.frames == s.frames && t.log == s.log && t.boundaryDone == s.boundaryDone &&
            (forall m :: m != n ==> RefAt(t, RecordOf(m)) == RefAt(s, RecordOf(m)))
  {
    hide Inv, Pin, RecordLoadSet, RecordEdge, RefAt, Deref, BuiltValue;
    PinnedToggle(s, h, hint);
    PinHolds(s, h, hint);
    var s1 := Pin(s, h, hint);
    RecordLoadSetCells(s1, n, author, plugin);
    EdgeKeepsCells(RecordLoadSet(s1, n, author, plugin), Edge(author, plugin, n));
    BuiltReads(s, h);
    assert forall m :: RefAt(s1, RecordOf(m)) == RefAt(s, RecordOf(m)) by { PinnedRecords(s, h, hint); }
  }

  lemma PinnedRecords(s: State, h: nat, hint: int)
    requires Inv(s) && BuiltValue(s, h)
    ensures forall m :: RefAt(Pin(s, h, hint), RecordOf(m)) == RefAt(s, RecordOf(m))
  {
    hide Placed, Stack, Truth, Fresh, History, Ledger, Pin, RefAt, ValueAt, BuiltValue;
    PinCells(s, h, hint);
  }

  lemma BuiltReads(s: State, h: nat)
    requires BuiltValue(s, h)
    ensures Read(s, h) == Ok(ValueAt(s, HandleOf(h)))
  {}

  lemma EdgeKeepsCells(s: State, e: Edge)
    ensures var t := RecordEdge(s, e);
            t.store == s.store && t.frames == s.frames && t.log == s.log && t.boundaryDone == s.boundaryDone &&
            forall c :: RefAt(t, c) == RefAt(s, c) && ValueAt(t, c) == ValueAt(s, c)
  {}


  // A set that toggles hands the toggle exactly the value its handle reads ...
  lemma ToggleGetsTheValue(events: seq<Event>, n: string, h: nat, author: string, plugin: string, earlyStop: bool,
                           hint: int, e: Entering)
    requires var s := Reached(events);
             UserOnTop(s) && BuiltValue(s, h) && n in s.store && (s.boundaryDone || s.store[n].applied) &&
             RefAt(s, RevertOf(n)) != NO_REF && !(s.store[n].tier.Plugin? && earlyStop)
    ensures var s := Reached(events); var t := Step(s, Set(n, h, author, plugin, earlyStop, hint, e));
            Read(s, h).Ok? && |t.frames| == |s.frames| + 2 && Top(t).User? &&
            t.frames[|s.frames|].Toggle? && t.frames[|s.frames|].name == n &&
            t.frames[|s.frames|].stage.value == Read(s, h).value
  {
    hide Inv, Reached, Pin, BeginToggle, RefAt, ValueAt, BuiltValue, Core, Ledger;
    var s := Reached(events);
    ReachedInv(events);
    PinnedToggle(s, h, hint);
    PinHolds(s, h, hint);
    ToggleBegins(Pin(s, h, hint), n, None, e);
    BuiltReads(s, h);
  }

  lemma ToggleBegins(s: State, n: string, queuedBy: Option<Edge>, e: Entering)
    requires Core(s) && UserOnTop(s) && |s.frames| % 2 == 1 && n in s.store && RefAt(s, RevertOf(n)) != NO_REF
    requires RefAt(s, Local(0)) != NO_REF && (s.boundaryDone || s.store[n].applied)
    ensures var t := BeginToggle(s, n, queuedBy, e); var i := |s.frames|;
            |t.frames| == i + 2 && Top(t).User? && t.frames[..i] == s.frames && t.edges == s.edges &&
            t.frames[i].Toggle? && t.frames[i].name == n && t.frames[i].queuedBy == queuedBy &&
            t.frames[i].stage.value == ValueAt(s, Local(0))
  {
    hide Core, Advances, Move, Enter, RefAt, ValueAt;
    var s1 := Move(Push(s, Toggle(n, Reverting(ValueAt(s, Local(0))), queuedBy)), Local(0), FrameOf(|s.frames|));
    PushedValue(s, n, queuedBy);
    PushToggleFacts(s, n, queuedBy);
    var v := ValueAt(s1, RecordOf(n));
    if s.store[n].applied {
      EnterFrames(Log(Touch(s1, RefAt(s1, RecordOf(n))), RevertCalled(n, v)), RevertOf(n), [v], e);
      EnterEdges(Log(Touch(s1, RefAt(s1, RecordOf(n))), RevertCalled(n, v)), RevertOf(n), [v], e);
    } else {
      CallImplementationFrames(s1, e);
      CallImplementationEdges(s1, e);
    }
    assert s1.frames[..|s.frames|] == s.frames;
  }

  lemma EnterEdges(s: State, fn: Cell, args: seq<Value>, e: Entering)
    ensures Enter(s, fn, args, e).edges == s.edges
  {
    hide Ref;
  }

  lemma CallImplementationEdges(s: State, e: Entering)
    requires s.frames != [] && Top(s).Toggle?
    ensures CallImplementation(s, e).edges == s.edges
  {
    hide Enter, ValueAt;
    var Toggle(n, _, queuedBy) := Top(s);
    var v := ValueAt(s, FrameOf(|s.frames| - 1));
    EnterEdges(Log(SetTop(s, Toggle(n, Implementing(v), queuedBy)), ImplCalled(n, v)), ImplOf(n), [v], e);
  }

  // ... and the toggle, when it commits, makes get() answer exactly the value it was handed.
  lemma CommittedToggleAnswers(events: seq<Event>, e: Entering)
    requires var s := Reached(events);
             |s.frames| > 1 && Top(s).User? && s.frames[|s.frames| - 2].Toggle? &&
             s.frames[|s.frames| - 2].stage.Implementing?
    ensures var s := Reached(events); var t := Step(s, Return(false, e)); var toggle := s.frames[|s.frames| - 2];
            toggle.name in t.store && t.store[toggle.name].applied && CurrentValue(t, toggle.name) == toggle.stage.value
  {
    hide Inv, Reached, DoReturn;
    ToggleDispositions(events, false, e);
  }

  // ---- Every run -------------------------------------------------------------

  lemma NilFreeAnswers(s: State)
    requires Inv(s)
    ensures NilFree(s, false) <==> forall n :: n in s.store ==>
              CurrentValue(s, n) != Nil && ValueAt(s, DefaultOf(n)) != Nil
  {}

  predicate AnswersNil(s: State, n: string) {
    n in s.store && CurrentValue(s, n) == Nil
  }

  // The behavior such an event answers nil for.
  function NilName(s: State, e: Event): string
    requires PutsNil(s, e)
  {
    if e.Return? then s.frames[|s.frames| - 2].name else e.n
  }

  lemma PutsNilAnswers(events: seq<Event>, e: Event)
    requires PutsNil(Reached(events), e)
    ensures var s := Reached(events); var t := Step(s, e);
            NilName(s, e) in t.store && CurrentValue(t, NilName(s, e)) == Nil
  {
    hide Inv, Reached, Step, BuiltValue, Read, RefAt, ValueAt;
    match e {
      case Declare(n, tier, h, hasRevert, d, i, r) => DeclareAnswers(events, n, tier, h, hasRevert, d, i, r);
      case Set(n, h, author, plugin, earlyStop, hint, entering) =>
        LoadSetRecords(events, n, h, author, plugin, earlyStop, hint, entering);
      case Return(_, entering) => CommittedToggleAnswers(events, entering);
      case _ =>
    }
  }

  // Up to event k nothing has put nil anywhere get() answers from.
  lemma {:induction false} CleanSoFar(events: seq<Event>, k: nat)
    requires k <= |events| && forall j :: 0 <= j < k ==> !PutsNil(Reached(events[..j]), events[j])
    ensures NilFree(Reached(events[..k]), false)
    decreases k
  {
    hide NilFree, Reached, PutsNil, Step, Inv;
    if k == 0 {
      NothingYet(events);
    } else {
      CleanSoFar(events, k - 1);
      ReachedInv(events[..k - 1]);
      StepNil(Reached(events[..k - 1]), events[k - 1], false);
      ReachedNext(events, k - 1);
    }
  }

  lemma NothingYet(events: seq<Event>)
    ensures NilFree(Reached(events[..0]), true) && NilFree(Reached(events[..0]), false) &&
            QueueFine(Reached(events[..0]))
  {
    ReachedNothing();
    assert events[..0] == [];
  }

  lemma ReachedNext(events: seq<Event>, k: nat)
    requires k < |events|
    ensures Reached(events[..k + 1]) == Step(Reached(events[..k]), events[k])
  {
    hide Reached, Step;
    assert events[..k + 1] == events[..k] + [events[k]];
    ReachedStep(events[..k], events[k]);
  }

  // Over a whole run get() answers nil at some point if and only if some event of it is an accepted
  // declare or load-window set with a handle that reads nil, or commits a toggle to nil.
  lemma NilAnswers(events: seq<Event>)
    ensures (exists k, n :: 0 <= k <= |events| && AnswersNil(Reached(events[..k]), n)) <==>
            (exists k :: 0 <= k < |events| && PutsNil(Reached(events[..k]), events[k]))
  {
    hide NilFree, Reached, PutsNil, Step, Inv, CurrentValue;
    if k :| 0 <= k < |events| && PutsNil(Reached(events[..k]), events[k]) {
      PutsNilAnswers(events[..k], events[k]);
      ReachedNext(events, k);
      assert AnswersNil(Reached(events[..k + 1]), NilName(Reached(events[..k]), events[k]));
    } else {
      forall k, n | 0 <= k <= |events| ensures !AnswersNil(Reached(events[..k]), n) {
        CleanSoFar(events, k);
        ReachedInv(events[..k]);
        NilFreeAnswers(Reached(events[..k]));
      }
    }
  }

  // So get() never answers nil while no declare and no set is given a handle that reads nil, which
  // its caller can ask before the call; what comes in through the queue is never nil.
  lemma NeverNil(events: seq<Event>, n: string)
    requires forall k :: 0 <= k < |events| && (events[k].Declare? || events[k].Set?) ==>
               Read(Reached(events[..k]), events[k].h) != Ok(Nil)
    requires n in Reached(events).store
    ensures CurrentValue(Reached(events), n) != Nil
  {
    hide NilFree, Reached, Read, Inv, CurrentValue;
    assert events[..|events|] == events;
    NothingHanded(events, |events|);
    ReachedInv(events);
    NilFreeAnswers(Reached(events));
    Shallow(Reached(events));
  }

  lemma Shallow(s: State)
    requires NilFree(s, true)
    ensures NilFree(s, false)
  {}

  lemma {:induction false} NothingHanded(events: seq<Event>, k: nat)
    requires k <= |events| && forall j :: 0 <= j < k ==> !HandsNil(Reached(events[..j]), events[j])
    ensures NilFree(Reached(events[..k]), true) && QueueFine(Reached(events[..k]))
    decreases k
  {
    hide NilFree, QueueFine, Reached, Step, HandsNil, Inv;
    if k == 0 {
      NothingYet(events);
    } else {
      NothingHanded(events, k - 1);
      var s, e := Reached(events[..k - 1]), events[k - 1];
      ReachedInv(events[..k - 1]);
      HandedNothing(s, e);
      StepNil(s, e, true);
      StepQueue(s, e);
      ReachedNext(events, k - 1);
    }
  }

  // A toggle holds no nil when no frame cell does.
  lemma HandedNothing(s: State, e: Event)
    requires Inv(s) && NilFree(s, true) && !HandsNil(s, e)
    ensures !PutsNil(s, e)
  {
    hide Ledger, Placed, Truth, Fresh, History, Read, BuiltValue, RefAt, ValueAt;
    if e.Return? && |s.frames| > 1 && s.frames[|s.frames| - 2].Toggle? {
      var i := |s.frames| - 2;
      assert FrameOk(s, i);
      FineMeans(s, FrameOf(i));
    }
  }

  // A run that ends with get() answering nil: a table child that is missing comes back as a built
  // handle on the nil reference, and the set takes it.
  function NilRun(): seq<Event> {
    [Build(Obj(1), 0), Declare("b", Plugin, 1, false, 0, 0, 0), Build(Nil, 0),
     Set("b", 2, "a", "p", false, 0, Entering(LuaFunction, 0))]
  }

  lemma GetCanAnswerNil()
    ensures var s := Reached(NilRun());
            "b" in s.store && RefAt(s, RecordOf("b")) != NO_REF && CurrentValue(s, "b") == Nil
  {
    hide Step, Inv, Run, RefAt, Deref;
    var es := NilRun();
    assert es[..1] == [] + [es[0]] && es[..2] == es[..1] + [es[1]] && es[..3] == es[..2] + [es[2]] &&
           es == es[..3] + [es[3]];
    ReachedStep([], es[0]);
    ReachedStep(es[..1], es[1]);
    ReachedStep(es[..2], es[2]);
    ReachedStep(es[..3], es[3]);
    InitInv();
    ReachedNothing();
    NilRunBuilt(Init());
    var s1 := Reached(es[..1]);
    ReachedInv(es[..1]);
    NilRunDeclared(s1);
    var s2 := Reached(es[..2]);
    ReachedInv(es[..2]);
    NilRunRead(s2);
    LoadSetRecords(es[..3], "b", 2, "a", "p", false, 0, Entering(LuaFunction, 0));
  }

  lemma ReachedNothing()
    ensures Reached([]) == Init()
  {
    hide Step;
  }

  lemma ReachedStep(es: seq<Event>, e: Event)
    ensures Reached(es + [e]) == Step(Reached(es), e)
  {
    hide Step;
    RunAppend(Init(), es, [e]);
    var s := Reached(es);
    assert Run(s, [e]) == Run(Step(s, e), [e][1..]);
  }

  lemma NilRunBuilt(s: State)
    requires s == Init()
    ensures var t := Step(s, Build(Obj(1), 0));
            t.frames == [Main] && t.store == map[] && !t.boundaryDone && t.nextHandle == 2 && BuiltValue(t, 1)
  {}

  lemma NilRunDeclared(s: State)
    requires Inv(s) && s.frames == [Main] && s.store == map[] && !s.boundaryDone && s.nextHandle == 2 &&
             BuiltValue(s, 1)
    ensures var t := Step(s, Declare("b", Plugin, 1, false, 0, 0, 0));
            t.frames == [Main] && "b" in t.store && !t.store["b"].applied && !t.boundaryDone && t.nextHandle == 2
  {
    hide Ledger, Placed, Stack, Truth, Fresh, History, Pin, Trampolines, Adopt, BuiltValue, RefAt, ValueAt;
    PinCells(s, 1, 0);
    var s1 := Pin(s, 1, 0);
    TrampolinesCells(s1, false, 0, 0);
    assert forall c :: RefAt(s, c) != NO_REF ==> Home(s, c) by { InvHomes(s); }
    AdoptCells(Trampolines(s1, false, 0, 0), "b", Plugin);
  }

  lemma InvHomes(s: State)
    requires Inv(s)
    ensures forall c :: RefAt(s, c) != NO_REF ==> Home(s, c)
  {
    hide Ledger, Stack, Truth, Fresh, History;
  }

  lemma NilRunRead(s: State)
    requires Inv(s) && s.frames == [Main] && "b" in s.store && !s.store["b"].applied && !s.boundaryDone &&
             s.nextHandle == 2
    ensures var t := Step(s, Build(Nil, 0));
            t.frames == [Main] && t.store == s.store && !t.boundaryDone && BuiltValue(t, 2) && Read(t, 2) == Ok(Nil)
  {
    hide Ledger, Placed, Stack, Truth, Fresh, History, MintBuilt, RefAt, ValueAt;
    NoHandle(s);
    MintBuiltCells(s, 0, Nil);
  }
}
