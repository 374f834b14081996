/** Every step keeps the invariant, so every state of every run has it. */
module BehaviorRuns {
  import opened Options
  import opened RefLedger
  import opened BehaviorSteps
  import opened BehaviorEffects
  import opened BehaviorInvariant
  import opened BehaviorPreservation

  // ---- The shape of the stack ------------------------------------------------

  lemma TopAtEven(s: State)
    requires Stack(s) && |s.frames| % 2 == 1
    ensures UserOnTop(s)
  {
    assert FrameOk(s, |s.frames| - 1);
  }

  lemma UserAtEven(s: State)
    requires Stack(s) && UserOnTop(s)
    ensures |s.frames| % 2 == 1
    ensures Top(s).Main? ==> s.frames == [Main]
  {
    assert FrameOk(s, |s.frames| - 1);
  }

  // ---- A callback is over ----------------------------------------------------

  lemma LeaveKeeps(s: State, raised: bool)
    requires Inv(s) && Top(s).User?
    ensures var t := Leave(s, raised);
            Core(t) && Advances(s, t) && t.frames == s.frames[..|s.frames| - 1] && |t.frames| % 2 == 0 &&
            t.frames != [] &&
            (forall k :: RefAt(t, Local(k)) == NO_REF)
  {
    hide Core, Advances, ReleaseTransient, RefAt, ValueAt, FrameOk;
    UserAtEvenCore(s);
    PopUserKeepsCore(s);
    var s1 := Pop(s);
    PopLocals(s);
    match Top(s).transient {
      case None =>
      case Some(h) =>
        if !raised {
          ReleaseTransientKeeps(s1, h);
          ReleaseTransientLocals(s1, h);
          AdvancesTransitive(s, s1, Leave(s, raised));
        }
    }
  }

  lemma UserAtEvenCore(s: State)
    requires Core(s) && UserOnTop(s)
    ensures |s.frames| % 2 == 1 && (Top(s).User? ==> |s.frames| > 1)
    ensures Top(s).Main? ==> s.frames == [Main]
  {
    UserAtEven(s);
    assert FrameOk(s, |s.frames| - 1);
  }

  lemma PopUserKeepsCore(s: State)
    requires Core(s) && |s.frames| > 1 && Top(s).User?
    ensures Core(Pop(s)) && Advances(s, Pop(s))
  {
    PopUserKeeps(s);
  }

  lemma PopLocals(s: State)
    requires s.frames != []
    ensures forall c :: RefAt(Pop(s), c) == RefAt(s, c)
  {}

  lemma ReleaseTransientLocals(s: State, h: nat)
    requires Core(s)
    ensures forall k :: RefAt(ReleaseTransient(s, h), Local(k)) == RefAt(s, Local(k))
    ensures ReleaseTransient(s, h).frames == s.frames
  {
    hide ReleaseTransient, RefAt, ValueAt;
    ReleaseTransientCells(s, h);
  }

  // ---- The toggle resumes ----------------------------------------------------

  lemma RecordEdgeKeeps(s: State, e: Edge)
    requires Core(s)
    ensures var t := RecordEdge(s, e);
            Core(t) && Advances(s, t) && t.frames == s.frames && forall c :: RefAt(t, c) == RefAt(s, c)
  {
    hide Stack, Truth, History, Ledger, Placed, RefAt, ValueAt, Advances, Fresh;
    var t := RecordEdge(s, e);
    SameCellsKeepsLedger(s, t);
    QuietKeeps(s, t);
    assert Placed(t) by { hide *; EdgesPlaced(s, e); }
    FreshAdvances(s, t);
  }

  lemma EdgesPlaced(s: State, e: Edge)
    requires Placed(s)
    ensures Placed(RecordEdge(s, e))
  {
    forall c | RefAt(RecordEdge(s, e), c) != NO_REF ensures Home(RecordEdge(s, e), c) {
      assert RefAt(s, c) != NO_REF;
    }
  }

  lemma DropThenClear(s: State)
    requires Core(s) && |s.frames| > 1 && Top(s).Toggle? && |s.frames| % 2 == 0 &&
             (forall k :: RefAt(s, Local(k)) == NO_REF)
    ensures var t := DropToggle(s); Inv(t) && Advances(s, t) && Top(s).name in t.store
    ensures var t := ClearRecord(DropToggle(s), Top(s).name); Inv(t) && Advances(s, t)
  {
    hide Ledger, Placed, Truth, Fresh, History, DropToggle, ClearRecord, RefAt, ValueAt, Advances;
    var n := Top(s).name;
    var t := DropToggle(s);
    assert FrameOk(s, |s.frames| - 1);
    if Draining(s) { assert FrameOk(s, 1); }
    DropToggleKeeps(s);
    DropToggleCells(s);
    TopAtEven(t);
    ClearRecordKeeps(t, n);
    ClearRecordCells(t, n);
    AdvancesTransitive(s, t, ClearRecord(t, n));
  }

  lemma CommitKeeps(s: State)
    requires Core(s) && |s.frames| > 1 && Top(s).Toggle? && |s.frames| % 2 == 0 &&
             (forall k :: RefAt(s, Local(k)) == NO_REF)
    requires Top(s).stage.Implementing? && ImplReturned(Top(s).name, Top(s).stage.value) in s.log &&
             Top(s).name in s.store
    ensures var t := CommitToggle(s); Inv(t) && Advances(s, t)
  {
    hide Ledger, Placed, Truth, Fresh, History, CommitToggle, RefAt, ValueAt, Advances;
    CommitToggleKeeps(s);
    CommitToggleCells(s);
    TopAtEven(CommitToggle(s));
  }

  lemma ResumeToggleKeeps(s: State, raised: bool, entering: Entering)
    requires Core(s) && |s.frames| > 1 && Top(s).Toggle? && |s.frames| % 2 == 0 &&
             (forall k :: RefAt(s, Local(k)) == NO_REF)
    requires Top(s).name in s.store
    ensures var t := ResumeToggle(s, raised, entering); Inv(t) && Advances(s, t)
  {
    hide Core, Advances, DropToggle, ClearRecord, CommitToggle, CallImplementation, RefAt, ValueAt;
    match Top(s).stage {
      case Reverting(_) =>
        if raised { DropThenClear(s); } else { CallImplementationKeeps(s, entering); }
      case Implementing(v) =>
        if raised {
          DropThenClear(s);
        } else {
          var s1 := Log(s, ImplReturned(Top(s).name, v));
          LogKeeps(s, ImplReturned(Top(s).name, v));
          LogCells(s, ImplReturned(Top(s).name, v));
          CommitKeeps(s1);
          AdvancesTransitive(s, s1, CommitToggle(s1));
        }
    }
  }

  lemma LogCells(s: State, e: Entry)
    ensures forall c :: RefAt(Log(s, e), c) == RefAt(s, c)
  {}

  // ---- Verbs -----------------------------------------------------------------

  lemma BuildKeeps(s: State, hint: int, v: Value)
    requires Inv(s) && UserOnTop(s)
    ensures Inv(MintBuilt(s, hint, v)) && Advances(s, MintBuilt(s, hint, v))
  {
    hide Ledger, Placed, Stack, Truth, Fresh, History, MintBuilt, RefAt, ValueAt, Advances;
    MintBuiltKeeps(s, hint, v);
    NoHandleYet(s);
    MintBuiltCells(s, hint, v);
  }

  lemma SetKeeps(s: State, n: string, h: nat, author: string, plugin: string, earlyStop: bool, hint: int,
                 entering: Entering)
    requires Inv(s) && UserOnTop(s)
    ensures var t := DoSet(s, n, h, author, plugin, earlyStop, hint, entering); Inv(t) && Advances(s, t)
  {
    hide Core, Advances, Pin, RefAt, ValueAt, BeginToggle, RecordLoadSet, RecordEdge, BuiltValue;
    AdvancesRefl(s);
    if BuiltValue(s, h) && n in s.store && !(s.store[n].tier.Plugin? && earlyStop) {
      PinKeeps(s, h, hint);
      PinFacts(s, h, hint);
      var s1 := Pin(s, h, hint);
      if s1.boundaryDone || s1.store[n].applied {
        UserAtEvenCore(s1);
        BeginToggleKeeps(s1, n, None, entering);
        AdvancesTransitive(s, s1, BeginToggle(s1, n, None, entering));
      } else {
        RecordLoadSetKeeps(s1, n, author, plugin);
        RecordLoadSetFacts(s1, n, author, plugin);
        var s2 := RecordLoadSet(s1, n, author, plugin);
        RecordEdgeKeeps(s2, Edge(author, plugin, n));
        AdvancesTransitive(s, s1, s2);
        AdvancesTransitive(s, s2, RecordEdge(s2, Edge(author, plugin, n)));
      }
    }
  }

  lemma PinFacts(s: State, h: nat, hint: int)
    requires Core(s) && BuiltValue(s, h) && RefAt(s, Local(0)) == NO_REF
    ensures var t := Pin(s, h, hint);
            SameFrame(s, t) && RefAt(t, Local(0)) != NO_REF &&
            (forall k :: k != 0 ==> RefAt(t, Local(k)) == RefAt(s, Local(k)))
  {
    hide Pin, RefAt, ValueAt;
    PinCells(s, h, hint);
  }

  lemma RecordLoadSetFacts(s: State, n: string, author: string, plugin: string)
    requires Core(s) && n in s.store
    ensures var t := RecordLoadSet(s, n, author, plugin);
            t.frames == s.frames && RefAt(t, Local(0)) == NO_REF &&
            (forall k :: k != 0 ==> RefAt(t, Local(k)) == RefAt(s, Local(k)))
  {
    hide RecordLoadSet, RefAt, ValueAt;
    RecordLoadSetCells(s, n, author, plugin);
  }

  lemma InvokeKeeps(s: State, h: nat, args: seq<nat>, entering: Entering)
    requires Inv(s) && UserOnTop(s)
    ensures var t := DoInvoke(s, h, args, entering); Inv(t) && Advances(s, t)
  {
    hide Core, Advances, Callable, ReadCell, Arguments, Enter;
    AdvancesRefl(s);
    if Callable(s, h, args) {
      UserAtEvenCore(s);
      PushCallingKeeps(s);
      var s1 := Push(s, Calling);
      CallingWhileBusyCore(s);
      assert |s.frames| > 1 ==> s1.frames[1] == s.frames[1];
      EnterKeeps(s1, ReadCell(s, h), Arguments(s, args), entering);
      AdvancesTransitive(s, s1, DoInvoke(s, h, args, entering));
    }
  }

  lemma PushCallingKeeps(s: State)
    requires Core(s) && |s.frames| % 2 == 1
    ensures Core(Push(s, Calling)) && Advances(s, Push(s, Calling))
    ensures forall c :: RefAt(Push(s, Calling), c) == RefAt(s, c)
  {
    hide Truth, History, Ledger, Fresh;
    var t := Push(s, Calling);
    var k := |s.frames|;
    CallingWhileBusy(s);
    PassPending(s);
    assert t.frames[..k] == s.frames[..k];
    assert FrameOk(t, k);
    StackKept(s, t, k);
    forall i: nat | RefAt(s, FrameOf(i)) != NO_REF ensures i < |t.frames| && t.frames[i].Toggle? {
      FrameCells(s, i);
    }
    FramesKeep(s, t);
  }

  lemma PopCallingKeeps(s: State)
    requires Core(s) && |s.frames| > 1 && |s.frames| % 2 == 0 && Top(s).Calling? &&
             (forall k :: RefAt(s, Local(k)) == NO_REF)
    ensures Inv(Pop(s)) && Advances(s, Pop(s))
  {
    hide Truth, History, Ledger, Fresh;
    var t := Pop(s);
    var k := |s.frames| - 1;
    CallingWhileBusy(s);
    PassPending(s);
    assert t.frames[..k] == s.frames[..k];
    StackKept(s, t, k);
    forall i: nat | RefAt(s, FrameOf(i)) != NO_REF ensures i < |t.frames| && t.frames[i].Toggle? {
      FrameCells(s, i);
    }
    FramesKeep(s, t);
    TopAtEven(t);
  }

  // ---- The off-thread path ---------------------------------------------------

  // Handles that are not built values change nothing the invariant looks at.
  lemma OffThreadKeeps(s: State, t: State)
    requires Inv(s) && t.frames == s.frames && t.store == s.store && t.log == s.log && t.boundaryDone == s.boundaryDone
    requires t.slots == s.slots && t.refs == s.refs && t.refTop == s.refTop && t.fault == s.fault &&
             t.nextSeq == s.nextSeq
    requires t.queue != [] ==> s.boundaryDone
    requires forall h :: h in t.handles ==> h < t.nextHandle
    requires forall h :: h in s.handles && s.handles[h].BuiltHandle? ==> h in t.handles && t.handles[h] == s.handles[h]
    requires forall h :: h in t.handles && t.handles[h].BehaviorHandle? ==>
               h in s.handles && t.handles[h] == s.handles[h]
    ensures Inv(t) && Advances(s, t)
  {
    hide Stack, Truth, History, Ledger, RefAt, ValueAt, Advances, Fresh, Placed;
    SameCellsKeepsLedger(s, t);
    QuietKeeps(s, t);
    OffThreadPlaced(s, t);
    FreshAdvances(s, t);
  }

  lemma OffThreadPlaced(s: State, t: State)
    requires Placed(s) && t.frames == s.frames && t.store == s.store && t.refs == s.refs && t.nextSeq == s.nextSeq
    requires t.boundaryDone == s.boundaryDone && (t.queue != [] ==> s.boundaryDone)
    requires forall h :: h in t.handles ==> h < t.nextHandle
    requires forall h :: h in s.handles && s.handles[h].BuiltHandle? ==> h in t.handles && t.handles[h] == s.handles[h]
    ensures Placed(t)
  {
    forall c | RefAt(t, c) != NO_REF ensures Home(t, c) {
      assert RefAt(s, c) != NO_REF;
      assert Home(s, c);
    }
  }

  lemma StageKeeps(s: State, v: Value)
    requires Inv(s)
    ensures Inv(DoStage(s, v)) && Advances(s, DoStage(s, v))
  {
    hide Stack, Truth, History, Ledger, Fresh, AtRest, Advances;
    OffThreadKeeps(s, DoStage(s, v));
  }

  lemma QueueSetKeeps(s: State, n: string, h: nat, author: string, plugin: string)
    requires Inv(s)
    ensures var t := DoQueueSet(s, n, h, author, plugin); Inv(t) && Advances(s, t)
  {
    hide Stack, Truth, History, Ledger, Fresh, AtRest, Advances;
    OffThreadKeeps(s, DoQueueSet(s, n, h, author, plugin));
  }

  lemma LocalRefKeeps(s: State, hint: int, v: Value)
    requires Core(s) && RefAt(s, Local(0)) == NO_REF
    ensures var t := Ref(s, hint, v, Local(0));
            Core(t) && Advances(s, t) && SameFrame(s, t) && RefAt(t, Local(0)) != NO_REF &&
            (forall k :: k != 0 ==> RefAt(t, Local(k)) == RefAt(s, Local(k)))
  {
    hide Stack, Truth, History, Ledger, Ref, RefAt, ValueAt;
    RefKeepsLedger(s, hint, v, Local(0));
    QuietKeeps(s, Ref(s, hint, v, Local(0)));
    FreshAdvances(s, Ref(s, hint, v, Local(0)));
  }

  lemma RunQueuedKeeps(s: State, built: bool, hint: int, entering: Entering)
    requires Inv(s)
    ensures var t := DoRunQueued(s, built, hint, entering); Inv(t) && Advances(s, t)
  {
    hide Core, Advances, Ref, BeginToggle, RefAt, ValueAt;
    AdvancesRefl(s);
    if s.queue != [] && s.frames == [Main] {
      var q := s.queue[0];
      var s1 := s.(queue := s.queue[1..]);
      DequeueKeeps(s, s1);
      if q.name in s1.store && built {
        LocalRefKeeps(s1, hint, q.payload);
        var s2 := Ref(s1, hint, q.payload, Local(0));
        var e := Some(Edge(q.author, q.plugin, q.name));
        BeginToggleKeeps(s2, q.name, e, entering);
        AdvancesTransitive(s, s1, s2);
        AdvancesTransitive(s, s2, BeginToggle(s2, q.name, e, entering));
      }
    }
  }

  lemma DequeueKeeps(s: State, t: State)
    requires Inv(s) && s.queue != [] && t == s.(queue := s.queue[1..])
    ensures Inv(t) && Advances(s, t) && s.boundaryDone
    ensures forall c :: RefAt(t, c) == RefAt(s, c)
  {
    hide Stack, Truth, History, Ledger, Fresh, AtRest, Advances;
    OffThreadKeeps(s, t);
  }

  // ---- Declare ---------------------------------------------------------------

  lemma TrampolinesKeep(s: State, hasRevert: bool, implHint: int, revertHint: int)
    requires Core(s) && RefAt(s, Local(1)) == NO_REF && RefAt(s, Local(2)) == NO_REF
    ensures var t := Trampolines(s, hasRevert, implHint, revertHint);
            Core(t) && Advances(s, t) && SameFrame(s, t) && SameHandles(s, t) &&
            (forall k :: k != 1 && k != 2 ==> RefAt(t, Local(k)) == RefAt(s, Local(k)))
  {
    hide Stack, Truth, History, Ledger, Trampolines, RefAt, ValueAt;
    TrampolinesCells(s, hasRevert, implHint, revertHint);
    QuietKeeps(s, Trampolines(s, hasRevert, implHint, revertHint));
    FreshAdvances(s, Trampolines(s, hasRevert, implHint, revertHint));
  }

  lemma DropLocalsKeep(s: State)
    requires Core(s)
    ensures var t := Unref(Unref(Unref(s, Local(0)), Local(1)), Local(2));
            Core(t) && Advances(s, t) && SameFrame(s, t) &&
            RefAt(t, Local(0)) == NO_REF && RefAt(t, Local(1)) == NO_REF && RefAt(t, Local(2)) == NO_REF &&
            (forall k :: k > 2 ==> RefAt(t, Local(k)) == RefAt(s, Local(k)))
  {
    hide Stack, Truth, History, Ledger, Unref, RefAt, ValueAt;
    var t := Unref(Unref(Unref(s, Local(0)), Local(1)), Local(2));
    DropLocalsCells(s);
    QuietKeeps(s, t);
    FreshAdvances(s, t);
  }

  lemma NoCellsYet(s: State, n: string)
    requires Placed(s) && n !in s.store
    ensures RefAt(s, DefaultOf(n)) == NO_REF && RefAt(s, ImplOf(n)) == NO_REF && RefAt(s, RevertOf(n)) == NO_REF
    ensures RefAt(s, RecordOf(n)) == NO_REF
  {
    assert !Home(s, DefaultOf(n)) && !Home(s, ImplOf(n)) && !Home(s, RevertOf(n)) && !Home(s, RecordOf(n));
  }

  // A new behavior joins the store with its three references and nothing on record.
  ghost predicate Adopted(s: State, t: State, n: string) {
    && n !in s.store && SameBut(s, t, {Local(0), Local(1), Local(2), DefaultOf(n), ImplOf(n), RevertOf(n)})
    && RefAt(t, DefaultOf(n)) != NO_REF && RefAt(s, RecordOf(n)) == NO_REF
    && n in t.store && t.store == s.store[n := t.store[n]] && !t.store[n].applied
    && t.store[n].declareSeq == s.nextSeq + 1 && t.nextSeq == s.nextSeq + 1
    && SameHandles(s, t) && t.frames == s.frames && t.log == s.log && t.boundaryDone == s.boundaryDone &&
       t.queue == s.queue
  }

  lemma AdoptIsAdopted(s: State, n: string, tier: Tier)
    requires Core(s) && n !in s.store && RefAt(s, Local(0)) != NO_REF
    ensures Adopted(s, Adopt(s, n, tier), n) && Ledger(Adopt(s, n, tier))
    ensures var t := Adopt(s, n, tier);
            RefAt(t, Local(0)) == NO_REF && RefAt(t, Local(1)) == NO_REF && RefAt(t, Local(2)) == NO_REF
  {
    hide Adopt, RefAt, ValueAt, Ledger;
    NoCellsYet(s, n);
    AdoptCells(s, n, tier);
  }

  lemma AdoptedPlaced(s: State, t: State, n: string)
    requires Placed(s) && Adopted(s, t, n)
    ensures Placed(t)
  {
    hide RefAt, ValueAt, Home;
    forall c | RefAt(t, c) != NO_REF ensures Home(t, c) {
      AdoptedHome(s, t, n, c);
    }
    forall m | m in t.store ensures RefAt(t, DefaultOf(m)) != NO_REF && t.store[m].declareSeq <= t.nextSeq {
      if m != n { assert m in s.store; }
    }
  }

  lemma AdoptedHome(s: State, t: State, n: string, c: Cell)
    requires Adopted(s, t, n) && RefAt(t, c) != NO_REF
    requires RefAt(s, c) != NO_REF ==> Home(s, c)
    ensures Home(t, c)
  {
    hide RefAt, ValueAt;
  }

  lemma AdoptedAdvances(s: State, t: State, n: string)
    requires Adopted(s, t, n)
    ensures Advances(s, t)
  {
    hide RefAt, ValueAt;
    forall m | m in s.store ensures AdvancesOn(s, t, m) {
      assert m != n;
    }
  }

  lemma AdoptedKeeps(s: State, t: State, n: string)
    requires Core(s) && Adopted(s, t, n) && Ledger(t)
    ensures Core(t) && Advances(s, t)
  {
    hide Ledger, TruthOf, FrameOk, EntryOk, RefAt, ValueAt, Advances, Placed, Fresh, Pending;
    forall m | m != n ensures SameRecord(s, t, m) {}
    forall m ensures SameSeq(s, t, m) {}
    assert TruthOf(t, n) by { hide *; AdoptedTruth(s, t, n); }
    AdoptedStack(s, t, n);
    TruthKept(s, t, n);
    HistoryKept(s, t);
    AdoptedPlaced(s, t, n);
    AdoptedAdvances(s, t, n);
    FreshAdvances(s, t);
  }

  lemma AdoptedTruth(s: State, t: State, n: string)
    requires Adopted(s, t, n)
    ensures TruthOf(t, n)
  {
    hide ValueAt, RefAt;
  }

  lemma AdoptedStack(s: State, t: State, n: string)
    requires Stack(s) && Adopted(s, t, n)
    ensures Stack(t)
  {
    hide RefAt, ValueAt, FrameOk;
    PassPending(s);
    CallingWhileBusy(s);
    forall m | Draining(s) && m in s.frames[1].pass ensures Pending(t, m) {}
    assert t.frames[..|s.frames|] == s.frames[..|s.frames|];
    StackKept(s, t, |s.frames|);
  }

  lemma DeclareKeeps(s: State, n: string, tier: Tier, h: nat, hasRevert: bool, d: int, i: int, r: int)
    requires Inv(s) && UserOnTop(s)
    ensures var t := DoDeclare(s, n, tier, h, hasRevert, d, i, r); Inv(t) && Advances(s, t)
  {
    hide Core, Advances, Pin, Trampolines, Adopt, Unref, RefAt, ValueAt, BuiltValue, Adopted;
    AdvancesRefl(s);
    if !s.boundaryDone && BuiltValue(s, h) {
      PinKeeps(s, h, d);
      PinFacts(s, h, d);
      var s1 := Pin(s, h, d);
      TrampolinesKeep(s1, hasRevert, i, r);
      var s2 := Trampolines(s1, hasRevert, i, r);
      AdvancesTransitive(s, s1, s2);
      if n in s.store {
        DropLocalsKeep(s2);
      } else {
        AdoptIsAdopted(s2, n, tier);
        AdoptedKeeps(s2, Adopt(s2, n, tier), n);
        AdoptFacts(s2, n, tier);
      }
      AdvancesTransitive(s, s2, DoDeclare(s, n, tier, h, hasRevert, d, i, r));
    }
  }

  lemma AdoptFacts(s: State, n: string, tier: Tier)
    requires Core(s) && n !in s.store && RefAt(s, Local(0)) != NO_REF
    ensures Adopt(s, n, tier).frames == s.frames
    ensures forall k :: k > 2 ==> RefAt(Adopt(s, n, tier), Local(k)) == RefAt(s, Local(k))
  {
    hide Adopt, RefAt, ValueAt, Ledger;
    AdoptIsAdopted(s, n, tier);
  }

  // ---- The apply boundary ----------------------------------------------------

  lemma DrainAtBottom(s: State)
    requires Core(s) && s.frames != [] && Top(s).Drain?
    ensures s.frames == [Main, Top(s)] && Draining(s) && !s.boundaryDone && FrameOk(s, 1)
  {
    assert FrameOk(s, |s.frames| - 1);
    assert FrameOk(s, 0);
  }

  // Only the drain frame, the applied flags and the log differ.
  ghost predicate DrainStep(s: State, t: State) {
    && |s.frames| == 2 && s.frames[0].Main? && s.frames[1].Drain?
    && |t.frames| == 2 && t.frames[0].Main? && t.frames[1].Drain?
    && t.slots == s.slots && t.refs == s.refs && t.refTop == s.refTop && t.fault == s.fault
    && t.handles == s.handles && t.nextHandle == s.nextHandle && t.nextSeq == s.nextSeq
    && t.boundaryDone == s.boundaryDone && t.queue == s.queue
    && t.store.Keys == s.store.Keys
    && (forall m :: m in s.store ==> t.store[m] == s.store[m].(applied := t.store[m].applied))
  }

  lemma DrainStepKeeps(s: State, t: State)
    requires Core(s) && DrainStep(s, t) && FrameOk(t, 1) && Truth(t) && History(t)
    ensures Core(t) && Advances(s, t)
  {
    hide Ledger, Truth, History, FrameOk, HandleOk;
    SameCellsKeepsLedger(s, t);
    assert FrameOk(t, 0) by { FrameZero(t); }
    assert Placed(t) by {
      hide *;
      DrainStepPlaced(s, t);
    }
    assert Advances(s, t) by {
      hide *;
      DrainStepAdvances(s, t);
    }
    FreshAdvances(s, t);
  }

  lemma FrameZero(s: State)
    requires s.frames != [] && s.frames[0] == Main
    ensures FrameOk(s, 0)
  {}

  lemma DrainStepPlaced(s: State, t: State)
    requires Placed(s) && Stack(s) && DrainStep(s, t)
    ensures Placed(t)
  {
    forall c | RefAt(t, c) != NO_REF ensures Home(t, c) {
      assert RefAt(s, c) != NO_REF;
      assert Home(s, c);
    }
  }

  lemma DrainStepAdvances(s: State, t: State)
    requires DrainStep(s, t)
    ensures Advances(s, t)
  {}

  lemma StartBoundaryKeeps(s: State)
    requires Inv(s)
    ensures Inv(DoStartBoundary(s)) && Advances(s, DoStartBoundary(s))
  {
    hide Ledger, HandleOk, Truth, History, Placed, Stack;
    AdvancesRefl(s);
    if !s.boundaryDone && s.frames == [Main] {
      var t := DoStartBoundary(s);
      SameCellsKeepsLedger(s, t);
      StartBoundaryTruth(s);
      StartBoundaryFrames(s);
      FreshAdvances(s, t);
    }
  }

  lemma StartBoundaryFrames(s: State)
    requires Placed(s) && !s.boundaryDone && s.frames == [Main]
    ensures Placed(DoStartBoundary(s)) && Stack(DoStartBoundary(s))
  {
    var t := DoStartBoundary(s);
    assert FrameOk(t, 0) && FrameOk(t, 1);
    forall c | RefAt(t, c) != NO_REF ensures Home(t, c) {
      assert RefAt(s, c) != NO_REF;
      assert Home(s, c);
    }
  }

  lemma StartBoundaryTruth(s: State)
    requires Truth(s) && History(s) && !s.boundaryDone && s.frames == [Main]
    ensures Truth(DoStartBoundary(s)) && History(DoStartBoundary(s))
  {
    var t := DoStartBoundary(s);
    forall m | m in t.store ensures TruthOf(t, m) { assert TruthOf(s, m); }
    forall i | 0 <= i < |t.log| ensures EntryOk(t, i) { assert EntryOk(s, i); }
  }

  lemma SnapshotKeeps(s: State, pass: seq<string>)
    requires Inv(s)
    ensures Inv(DoSnapshot(s, pass)) && Advances(s, DoSnapshot(s, pass))
  {
    hide Ledger, Placed, Fresh, Truth, History, ValueAt;
    AdvancesRefl(s);
    if DrainIdle(s) && pass != [] && IsPass(s, Top(s).invoked, pass) {
      var t := DoSnapshot(s, pass);
      DrainAtBottom(s);
      assert FrameOk(t, 1);
      assert Truth(t) && History(t) by { hide *; SnapshotTruth(s, pass); }
      DrainStepKeeps(s, t);
      assert forall c :: RefAt(t, c) == RefAt(s, c) by { hide *; SnapshotCells(s, pass); }
    }
  }

  lemma SnapshotCells(s: State, pass: seq<string>)
    ensures forall c :: RefAt(DoSnapshot(s, pass), c) == RefAt(s, c)
  {}

  lemma SnapshotTruth(s: State, pass: seq<string>)
    requires Inv(s) && DrainIdle(s) && IsPass(s, Top(s).invoked, pass)
    ensures Truth(DoSnapshot(s, pass)) && History(DoSnapshot(s, pass))
  {
    hide Ledger, Placed, Fresh, IsPass, FrameOk;
    var t := DoSnapshot(s, pass);
    DrainAtBottom(s);
    if t != s {
      forall m | m in t.store ensures TruthOf(t, m) { assert TruthOf(s, m); }
      forall i | 0 <= i < |t.log| ensures EntryOk(t, i) { assert EntryOk(s, i); }
    }
  }

  // The state in which the drain enters n's implementation.
  function Invoked(s: State): State
    requires s.frames != [] && Top(s).Drain? && Top(s).pass != [] && Top(s).pass[0] in s.store
  {
    var d := Top(s);
    var n := d.pass[0];
    var v := ValueAt(s, RecordOf(n));
    var s1 := WithBehavior(s, n, s.store[n].(applied := true));
    var s2 := SetTop(s1, Drain(d.invoked + {n}, d.pass[1..], Some(n), v, d.passNo));
    Log(Log(s2, DrainCalled(n, v, d.passNo)), ImplCalled(n, v))
  }

  lemma InvokedFrame(s: State)
    requires Inv(s) && Top(s).Drain? && Top(s).pass != [] && Top(s).pass[0] in s.store
    ensures DrainStep(s, Invoked(s)) && FrameOk(Invoked(s), 1)
  {
    hide Ledger, Placed, Fresh, Truth, History, ValueAt;
    DrainAtBottom(s);
    var d := Top(s);
    var t := Invoked(s);
    var n := d.pass[0];
    forall m | m in d.pass[1..] ensures Pending(t, m) && m !in d.invoked + {n} {
      assert m in d.pass;
      assert Pending(s, m);
      assert s.store[n].declareSeq < s.store[m].declareSeq;
    }
  }

  lemma InvokedTruth(s: State)
    requires Inv(s) && Top(s).Drain? && Top(s).pass != [] && Top(s).pass[0] in s.store
    ensures Truth(Invoked(s))
  {
    hide Ledger, Placed, Fresh, History, ValueAt;
    DrainAtBottom(s);
    PassPending(s);
    var t := Invoked(s);
    forall m | m in t.store ensures TruthOf(t, m) {
      assert TruthOf(s, m);
      assert ValueAt(t, RecordOf(m)) == ValueAt(s, RecordOf(m)) by { hide *; InvokedValues(s, RecordOf(m)); }
    }
  }

  lemma InvokedValues(s: State, c: Cell)
    requires s.frames != [] && Top(s).Drain? && Top(s).pass != [] && Top(s).pass[0] in s.store
    ensures ValueAt(Invoked(s), c) == ValueAt(s, c) && RefAt(Invoked(s), c) == RefAt(s, c)
  {}

  lemma InvokedHistory(s: State)
    requires Inv(s) && Top(s).Drain? && Top(s).pass != [] && Top(s).pass[0] in s.store
    ensures History(Invoked(s))
  {
    hide Ledger, Placed, Fresh, Truth, ValueAt;
    DrainAtBottom(s);
    PassPending(s);
    var t := Invoked(s);
    var d := Top(s);
    var n := d.pass[0];
    forall m | m in d.pass[1..] ensures m in d.pass && m in s.store && s.store[n].declareSeq < s.store[m].declareSeq {}
    forall i | 0 <= i < |t.log| ensures EntryOk(t, i) {
      if i < |s.log| {
        assert EntryOk(s, i);
        assert t.log[..i] == s.log[..i];
      }
    }
    forall i, j | 0 <= i < j < |t.log| && t.log[i].DrainCalled? && t.log[j].DrainCalled?
      ensures t.log[i].name != t.log[j].name && t.log[i].pass <= t.log[j].pass
      ensures t.log[i].pass == t.log[j].pass && t.log[i].name in t.store && t.log[j].name in t.store ==>
                t.store[t.log[i].name].declareSeq < t.store[t.log[j].name].declareSeq
    {
      assert i < |s.log| && EntryOk(s, i);
      assert n in d.pass && n !in d.invoked;
    }
  }

  lemma DrainNextKeeps(s: State, entering: Entering)
    requires Inv(s)
    ensures Inv(DoDrainNext(s, entering)) && Advances(s, DoDrainNext(s, entering))
  {
    hide Core, Advances, Enter, Invoked, DrainStep, FrameOk, Truth, History, RefAt, ValueAt, Pending;
    AdvancesRefl(s);
    if Top(s).Drain? && Top(s).pass != [] {
      var n := Top(s).pass[0];
      DrainAtBottom(s);
      HeadPending(s);
      InvokedFrame(s);
      InvokedTruth(s);
      InvokedHistory(s);
      var t := Invoked(s);
      var v := ValueAt(s, RecordOf(n));
      DrainStepKeeps(s, t);
      InvokedFacts(s);
      EnterKeeps(t, ImplOf(n), [v], entering);
      AdvancesTransitive(s, t, Enter(t, ImplOf(n), [v], entering));
      DrainNextEnters(s, entering);
    }
  }

  lemma DrainNextEnters(s: State, entering: Entering)
    requires Core(s) && s.frames != [] && Top(s).Drain? && Top(s).pass != [] && Pending(s, Top(s).pass[0])
    ensures DoDrainNext(s, entering) == Enter(Invoked(s), ImplOf(Top(s).pass[0]),
                                              [ValueAt(s, RecordOf(Top(s).pass[0]))],
                                              entering)
  {
    hide Enter, Placed, Stack, Truth, Fresh, History;
    var n := Top(s).pass[0];
    TouchHeld(s, RecordOf(n));
    var d := Top(s);
    var s1 := WithBehavior(s, n, s.store[n].(applied := true));
    assert Touch(s1, RefAt(s, RecordOf(n))) == s1;
  }

  // The re-check at the head of the pass never fires: what a pass is left with is pending.
  lemma HeadPending(s: State)
    requires Inv(s) && Top(s).Drain? && Top(s).pass != []
    ensures Pending(s, Top(s).pass[0]) && Top(s).pass[0] in s.store
  {
    hide Ledger, Placed, Fresh, Truth, History;
    DrainAtBottom(s);
    PassPending(s);
    assert Top(s).pass[0] in Top(s).pass;
  }

  lemma InvokedFacts(s: State)
    requires Inv(s) && Top(s).Drain? && Top(s).pass != [] && Top(s).pass[0] in s.store
    ensures var t := Invoked(s);
            |t.frames| == 2 && t.frames[1].Drain? && t.frames[1].calling.Some? &&
            (forall c :: RefAt(t, c) == RefAt(s, c))
  {
    DrainAtBottom(s);
  }

  // The drain is told that its callback is over.
  lemma CallingDoneKeeps(s: State)
    requires Core(s) && s.frames != [] && Top(s).Drain? && Top(s).calling.Some? && Top(s).calling.value in s.store
    requires (forall k :: RefAt(s, Local(k)) == NO_REF)
    requires !s.store[Top(s).calling.value].applied || ImplReturned(Top(s).calling.value, Top(s).callingValue) in s.log
    ensures var t := SetTop(s, Top(s).(calling := None)); Inv(t) && Advances(s, t)
  {
    hide Ledger, Placed, Fresh, Truth, ValueAt;
    var t := SetTop(s, Top(s).(calling := None));
    DrainAtBottom(s);
    assert FrameOk(t, 1);
    forall m ensures SameSeq(s, t, m) {}
    HistoryStands(s, t);
    assert Truth(t) by { hide *; CallingDoneTruth(s); }
    DrainStepKeeps(s, t);
  }

  lemma CallingDoneTruth(s: State)
    requires Core(s) && s.frames != [] && Top(s).Drain? && Top(s).calling.Some? && Top(s).calling.value in s.store
    requires !s.store[Top(s).calling.value].applied || ImplReturned(Top(s).calling.value, Top(s).callingValue) in s.log
    ensures Truth(SetTop(s, Top(s).(calling := None)))
  {
    hide Ledger, Placed, Fresh, History;
    var t := SetTop(s, Top(s).(calling := None));
    DrainAtBottom(s);
    forall m | m in t.store ensures TruthOf(t, m) { assert TruthOf(s, m); }
  }

  lemma ResumeDrainKeeps(s: State, raised: bool)
    requires Core(s) && s.frames != [] && Top(s).Drain? && Top(s).calling.Some? &&
             (forall k :: RefAt(s, Local(k)) == NO_REF)
    ensures Inv(ResumeDrain(s, raised)) && Advances(s, ResumeDrain(s, raised))
  {
    hide Core, Advances, RefAt, ValueAt, ClearRecord, FrameOk;
    DrainAtBottom(s);
    var n := Top(s).calling.value;
    CallingKnown(s);
    if raised {
      ClearRecordKeeps(s, n);
      ClearRecordFacts(s, n);
      var s1 := ClearRecord(s, n);
      CallingDoneKeeps(s1);
      AdvancesTransitive(s, s1, ResumeDrain(s, raised));
    } else {
      var e := ImplReturned(n, Top(s).callingValue);
      LogKeeps(s, e);
      LogCells(s, e);
      var s1 := Log(s, e);
      CallingDoneKeeps(s1);
      AdvancesTransitive(s, s1, ResumeDrain(s, raised));
    }
  }

  lemma CallingKnown(s: State)
    requires Core(s) && s.frames != [] && Top(s).Drain? && Top(s).calling.Some?
    ensures Top(s).calling.value in s.store && Top(s).calling.value in Top(s).invoked
  {
    DrainAtBottom(s);
  }

  lemma ClearRecordFacts(s: State, n: string)
    requires Core(s) && n in s.store
    ensures var t := ClearRecord(s, n);
            t.frames == s.frames && n in t.store && !t.store[n].applied &&
            (forall k :: RefAt(t, Local(k)) == RefAt(s, Local(k)))
  {
    hide ClearRecord, RefAt, ValueAt;
    ClearRecordCells(s, n);
  }

  lemma SweepOneKeeps(s: State, n: string)
    requires Inv(s)
    ensures Inv(DoSweepOne(s, n)) && Advances(s, DoSweepOne(s, n))
  {
    hide Core, Advances, RefAt, ValueAt, ClearRecord, FrameOk;
    AdvancesRefl(s);
    if Drained(s) && Pending(s, n) {
      DrainAtBottom(s);
      ClearRecordKeeps(s, n);
      ClearRecordFacts(s, n);
    }
  }

  lemma FinishBoundaryKeeps(s: State)
    requires Inv(s)
    ensures Inv(DoFinishBoundary(s)) && Advances(s, DoFinishBoundary(s))
  {
    hide Ledger, HandleOk, Truth, History, Placed;
    AdvancesRefl(s);
    if Drained(s) && forall n :: !Pending(s, n) {
      var t := DoFinishBoundary(s);
      DrainAtBottom(s);
      SameCellsKeepsLedger(s, t);
      FinishTruth(s);
      FinishPlaced(s);
      FrameZero(t);
      FreshAdvances(s, t);
    }
  }

  lemma FinishPlaced(s: State)
    requires Placed(s) && Drained(s) && s.frames == [Main, Top(s)]
    ensures Placed(DoFinishBoundary(s))
  {
    hide Pending;
    var t := DoFinishBoundary(s);
    forall c | RefAt(t, c) != NO_REF ensures Home(t, c) {
      assert RefAt(s, c) != NO_REF;
      assert Home(s, c);
    }
  }

  lemma FinishTruth(s: State)
    requires Inv(s) && Drained(s) && forall n :: !Pending(s, n)
    ensures Truth(DoFinishBoundary(s)) && History(DoFinishBoundary(s))
  {
    hide Ledger, Placed, Fresh;
    var t := DoFinishBoundary(s);
    DrainAtBottom(s);
    forall m | m in t.store ensures TruthOf(t, m) {
      assert TruthOf(s, m);
      assert !Pending(s, m);
    }
    forall i | 0 <= i < |t.log| ensures EntryOk(t, i) { assert EntryOk(s, i); }
  }

  // ---- One step, and every run -----------------------------------------------

  lemma ReturnKeeps(s: State, raised: bool, entering: Entering)
    requires Inv(s)
    ensures Inv(DoReturn(s, raised, entering)) && Advances(s, DoReturn(s, raised, entering))
  {
    hide Core, Advances, Leave, ResumeDrain, ResumeToggle, RefAt, FrameOk;
    AdvancesRefl(s);
    if Top(s).User? {
      LeaveKeeps(s, raised);
      var s1 := Leave(s, raised);
      UserAtEvenCore(s);
      EngineOnTop(s1);
      if Top(s1).Drain? {
        assert s1.frames == s.frames[..|s.frames| - 1];
        CallingWhileBusyCore(s);
        DrainAtBottom(s1);
        assert s.frames[1] == s1.frames[1];
        ResumeDrainKeeps(s1, raised);
      } else if Top(s1).Toggle? {
        ResumeToggleKeeps(s1, raised, entering);
      } else {
        PopCallingKeeps(s1);
      }
      AdvancesTransitive(s, s1, DoReturn(s, raised, entering));
    }
  }

  lemma EngineOnTop(s: State)
    requires Core(s) && |s.frames| % 2 == 0
    ensures s.frames != [] && |s.frames| > 1 && (Top(s).Drain? || Top(s).Toggle? || Top(s).Calling?)
    ensures Top(s).Toggle? ==> Top(s).name in s.store
  {
    assert FrameOk(s, |s.frames| - 1);
  }

  lemma StepKeeps(s: State, e: Event)
    requires Inv(s)
    ensures Inv(Step(s, e)) && Advances(s, Step(s, e))
  {
    hide Inv, Advances, MintBuilt, DoConsumeChild, DoGet, DoDeclare, DoSet, DoInvoke, DoReturn, DoStage, DoQueueSet,
      DoRunQueued, DoStartBoundary, DoSnapshot, DoDrainNext, DoSweepOne, DoFinishBoundary;
    AdvancesRefl(s);
    match e {
      case Build(v, hint) => if UserOnTop(s) { BuildKeeps(s, hint, v); }
      case ConsumeChild(h) => ConsumeChildKeepsInv(s, h);
      case Get(n) => GetKeepsInv(s, n);
      case Declare(n, tier, h, hasRevert, d, i, r) =>
        if UserOnTop(s) { DeclareKeeps(s, n, tier, h, hasRevert, d, i, r); }
      case Set(n, h, author, plugin, earlyStop, hint, entering) =>
        if UserOnTop(s) { SetKeeps(s, n, h, author, plugin, earlyStop, hint, entering); }
      case Invoke(h, args, entering) => if UserOnTop(s) { InvokeKeeps(s, h, args, entering); }
      case Return(raised, entering) => ReturnKeeps(s, raised, entering);
      case Stage(v) => StageKeeps(s, v);
      case QueueSet(n, h, author, plugin) => QueueSetKeeps(s, n, h, author, plugin);
      case RunQueued(built, hint, entering) => RunQueuedKeeps(s, built, hint, entering);
      case StartBoundary => StartBoundaryKeeps(s);
      case Snapshot(pass) => SnapshotKeeps(s, pass);
      case DrainNext(entering) => DrainNextKeeps(s, entering);
      case SweepOne(n) => SweepOneKeeps(s, n);
      case FinishBoundary => FinishBoundaryKeeps(s);
    }
  }

  lemma ConsumeChildKeepsInv(s: State, h: nat)
    requires Inv(s)
    ensures Inv(DoConsumeChild(s, h)) && Advances(s, DoConsumeChild(s, h))
  {
    hide Core, DoConsumeChild, Advances, RefAt;
    ConsumeChildKeeps(s, h);
  }

  lemma GetKeepsInv(s: State, n: string)
    requires Inv(s)
    ensures Inv(DoGet(s, n)) && Advances(s, DoGet(s, n))
  {
    hide Core, DoGet, Advances, RefAt;
    GetKeeps(s, n);
  }

  lemma InitInv()
    ensures Inv(Init())
  {
    var s := Init();
    assert forall c :: RefAt(s, c) == NO_REF;
    assert FrameOk(s, 0);
  }

  // Every state of every run satisfies the invariant, and no run undoes what it has fixed.
  lemma {:induction false} RunKeeps(s: State, events: seq<Event>)
    requires Inv(s)
    ensures Inv(Run(s, events)) && Advances(s, Run(s, events))
    decreases |events|
  {
    hide Inv, Advances, Step;
    if events == [] {
      AdvancesRefl(s);
    } else {
      StepKeeps(s, events[0]);
      RunKeeps(Step(s, events[0]), events[1..]);
      AdvancesTransitive(s, Step(s, events[0]), Run(s, events));
    }
  }
}
