/** Every engine operation keeps the invariant, one predicate at a time. */
module BehaviorPreservation {
  import opened Options
  import opened RefLedger
  import opened BehaviorSteps
  import opened BehaviorEffects
  import opened BehaviorInvariant

  // ---- What each predicate depends on ----------------------------------------

  // The drain is in the same place.
  predicate SameDrain(s: State, t: State) {
    && t.boundaryDone == s.boundaryDone
    && Draining(t) == Draining(s)
    && (Draining(s) ==> t.frames[1] == s.frames[1])
  }

  // The record of m, as reference and as value, and its applied flag stand.
  predicate SameRecord(s: State, t: State, m: string) {
    && (m in t.store <==> m in s.store)
    && (m in s.store ==> t.store[m].applied == s.store[m].applied)
    && RefAt(t, RecordOf(m)) == RefAt(s, RecordOf(m)) && ValueAt(t, RecordOf(m)) == ValueAt(s, RecordOf(m))
  }

  predicate SameSeq(s: State, t: State, m: string) {
    m in s.store ==> m in t.store && t.store[m].declareSeq == s.store[m].declareSeq
  }

  lemma TruthOfKept(s: State, t: State, m: string)
    requires m in s.store && TruthOf(s, m)
    requires SameDrain(s, t) && SameRecord(s, t, m) && s.log <= t.log
    ensures TruthOf(t, m)
  {}

  // Every behavior but n keeps its record.
  lemma TruthKept(s: State, t: State, n: string)
    requires Truth(s) && SameDrain(s, t) && s.log <= t.log
    requires forall m :: m in t.store && m != n ==> SameRecord(s, t, m)
    requires n in t.store ==> TruthOf(t, n)
    ensures Truth(t)
  {
    hide TruthOf, SameDrain, RefAt, ValueAt;
    forall m | m in t.store ensures TruthOf(t, m) {
      if m != n { TruthOfKept(s, t, m); }
    }
  }

  lemma EntryKept(s: State, t: State, i: nat)
    requires i < |s.log| && EntryOk(s, i) && s.log <= t.log
    requires t.boundaryDone == s.boundaryDone && Draining(t) == Draining(s)
    requires Draining(s) ==>
               s.frames[1].invoked <= t.frames[1].invoked && s.frames[1].passNo == t.frames[1].passNo &&
               forall m :: m in t.frames[1].pass ==> m in s.frames[1].pass
    requires forall m :: SameSeq(s, t, m)
    requires forall m :: Draining(s) && m in s.frames[1].pass ==> m in s.store
    ensures EntryOk(t, i)
  {
    assert t.log[i] == s.log[i];
    assert t.log[..i] == s.log[..i];
    assert t.log[i].DrainCalled? ==> SameSeq(s, t, t.log[i].name);
    if t.log[i].DrainCalled? && Draining(t) {
      var n := t.log[i].name;
      forall m | m in t.frames[1].pass && m in t.store && t.log[i].pass == t.frames[1].passNo
        ensures t.store[n].declareSeq < t.store[m].declareSeq
      {
        assert SameSeq(s, t, m);
      }
    }
  }

  // The history stands when the log does, the store only grows, and the drain has gone no
  // further than invoking more behaviors of the pass it is in.
  lemma HistoryStands(s: State, t: State)
    requires History(s) && Stack(s) && t.log == s.log && t.boundaryDone == s.boundaryDone && Draining(t) == Draining(s)
    requires forall m :: SameSeq(s, t, m)
    requires Draining(s) ==>
               s.frames[1].invoked <= t.frames[1].invoked && s.frames[1].passNo == t.frames[1].passNo &&
               forall m :: m in t.frames[1].pass ==> m in s.frames[1].pass
    ensures History(t)
  {
    forall m | Draining(s) && m in s.frames[1].pass ensures m in s.store {
      assert FrameOk(s, 1);
    }
    forall i | 0 <= i < |t.log| ensures EntryOk(t, i) {
      EntryKept(s, t, i);
    }
    forall i, j | 0 <= i < j < |t.log| && t.log[i].DrainCalled? && t.log[j].DrainCalled? &&
                  t.log[i].pass == t.log[j].pass && t.log[i].name in t.store && t.log[j].name in t.store
      ensures t.store[t.log[i].name].declareSeq < t.store[t.log[j].name].declareSeq
    {
      assert EntryOk(s, i) && EntryOk(s, j);
      assert SameSeq(s, t, t.log[i].name) && SameSeq(s, t, t.log[j].name);
    }
  }

  lemma HistoryKept(s: State, t: State)
    requires History(s) && Stack(s) && t.log == s.log && SameDrain(s, t) && forall m :: SameSeq(s, t, m)
    ensures History(t)
  {
    hide History, SameSeq;
    HistoryStands(s, t);
  }

  lemma HistoryLogged(s: State, e: Entry)
    requires History(s) && !e.DrainCalled?
    requires e.RevertCalled? ==> ImplCalled(e.name, e.value) in s.log
    ensures History(Log(s, e))
  {
    var t := Log(s, e);
    forall i | 0 <= i < |t.log| ensures EntryOk(t, i) {
      if i < |s.log| {
        assert EntryOk(s, i);
        assert t.log[..i] == s.log[..i];
      } else {
        assert t.log[..i] == s.log;
      }
    }
  }

  // What a frame that stays put needs from the step.
  lemma FrameKept(s: State, t: State, i: nat)
    requires i < |s.frames| && i < |t.frames| && t.frames[i] == s.frames[i] && FrameOk(s, i)
    requires t.boundaryDone == s.boundaryDone && s.log <= t.log
    requires i > 1 ==> t.frames[1] == s.frames[1]
    requires |t.frames| > 2 && t.frames[1].Drain? ==> t.frames[1].calling.Some?
    requires forall m :: SameSeq(s, t, m)
    requires Draining(s) ==> forall m :: m in s.frames[1].pass ==> Pending(t, m)
    requires RefAt(t, FrameOf(i)) == RefAt(s, FrameOf(i)) && ValueAt(t, FrameOf(i)) == ValueAt(s, FrameOf(i))
    ensures FrameOk(t, i)
  {
    match s.frames[i]
    case Drain(invoked, pass, calling, _, _) =>
      forall n | n in invoked ensures n in t.store { assert SameSeq(s, t, n); }
      forall j, k | 0 <= j < k < |pass|
        ensures pass[j] in t.store && pass[k] in t.store && t.store[pass[j]].declareSeq < t.store[pass[k]].declareSeq
      {
        assert SameSeq(s, t, pass[j]) && SameSeq(s, t, pass[k]);
      }
    case Toggle(n, _, _) => assert SameSeq(s, t, n);
    case Main =>
    case Calling =>
    case User(_, _, _) =>
  }

  // The frames below the top stay put.
  lemma StackKept(s: State, t: State, k: nat)
    requires Stack(s) && 0 < k <= |s.frames| && k <= |t.frames| && t.frames[..k] == s.frames[..k]
    requires t.boundaryDone == s.boundaryDone && s.log <= t.log
    requires |t.frames| > 2 && t.frames[1].Drain? ==> t.frames[1].calling.Some?
    requires forall m :: SameSeq(s, t, m)
    requires Draining(s) ==> forall m :: m in s.frames[1].pass ==> Pending(t, m)
    requires forall i :: 0 <= i < k ==>
               RefAt(t, FrameOf(i)) == RefAt(s, FrameOf(i)) && ValueAt(t, FrameOf(i)) == ValueAt(s, FrameOf(i))
    requires forall i :: k <= i < |t.frames| ==> FrameOk(t, i)
    ensures Stack(t)
  {
    hide RefAt, ValueAt, Pending, SameSeq;
    forall i | 0 <= i < k ensures FrameOk(t, i) {
      assert t.frames[i] == t.frames[..k][i] && s.frames[i] == s.frames[..k][i];
      if i > 1 {
        assert t.frames[1] == t.frames[..k][1] && s.frames[1] == s.frames[..k][1];
      }
      assert FrameOk(s, i);
      FrameKept(s, t, i);
    }
  }

  // ---- Steps that touch only handles and locals -----------------------------

  predicate BehaviorCell(c: Cell) {
    !c.HandleOf? && !c.Local?
  }

  ghost predicate Quiet(s: State, t: State) {
    && t.store == s.store && t.frames == s.frames && t.log == s.log && t.boundaryDone == s.boundaryDone
    && forall c :: BehaviorCell(c) ==> RefAt(t, c) == RefAt(s, c) && ValueAt(t, c) == ValueAt(s, c)
  }

  lemma QuietKeeps(s: State, t: State)
    requires Stack(s) && Truth(s) && History(s) && Quiet(s, t)
    ensures Stack(t) && Truth(t) && History(t) && Advances(s, t)
  {
    hide RefAt, ValueAt, TruthOf, FrameOk, EntryOk;
    forall m ensures SameRecord(s, t, m) && SameSeq(s, t, m) {
      assert BehaviorCell(RecordOf(m));
    }
    assert Draining(s) ==> forall m :: m in s.frames[1].pass ==> Pending(t, m) by {
      PassPending(s);
      forall m | Draining(s) && m in s.frames[1].pass ensures Pending(t, m) {
        assert Pending(s, m) && SameRecord(s, t, m);
      }
    }
    CallingWhileBusy(s);
    forall i: nat
      ensures RefAt(t, FrameOf(i)) == RefAt(s, FrameOf(i)) && ValueAt(t, FrameOf(i)) == ValueAt(s, FrameOf(i))
    {
      assert BehaviorCell(FrameOf(i));
    }
    StackKept(s, t, |s.frames|);
    forall m | m in t.store ensures TruthOf(t, m) {
      TruthOfKept(s, t, m);
    }
    HistoryKept(s, t);
    forall n | n in s.store ensures AdvancesOn(s, t, n) {
      assert BehaviorCell(DefaultOf(n)) && BehaviorCell(ImplOf(n)) && BehaviorCell(RevertOf(n)) &&
             BehaviorCell(RecordOf(n));
    }
  }

  lemma PassPending(s: State)
    requires Stack(s)
    ensures Draining(s) ==> forall m :: m in s.frames[1].pass ==> Pending(s, m) && m !in s.frames[1].invoked
  {
    if Draining(s) { assert FrameOk(s, 1); }
  }

  lemma CallingWhileBusy(s: State)
    requires Stack(s)
    ensures |s.frames| > 2 && s.frames[1].Drain? ==> s.frames[1].calling.Some?
  {
    if Draining(s) { assert FrameOk(s, 1); }
  }

  lemma MintBuiltKeeps(s: State, hint: int, v: Value)
    requires Core(s)
    ensures Core(MintBuilt(s, hint, v)) && Advances(s, MintBuilt(s, hint, v))
  {
    hide Stack, Truth, History, Ledger, MintBuilt, RefAt, ValueAt;
    assert RefAt(s, HandleOf(s.nextHandle)) == NO_REF by { NoHandleYet(s); }
    MintBuiltCells(s, hint, v);
    var t := MintBuilt(s, hint, v);
    QuietKeeps(s, t);
    FreshAdvances(s, t);
  }

  lemma NoHandleYet(s: State)
    requires Placed(s)
    ensures RefAt(s, HandleOf(s.nextHandle)) == NO_REF && s.nextHandle !in s.handles
  {
    assert !Home(s, HandleOf(s.nextHandle));
  }

  lemma ConsumeChildKeeps(s: State, h: nat)
    requires Core(s)
    ensures var t := DoConsumeChild(s, h);
            Core(t) && Advances(s, t) && t.frames == s.frames && forall k :: RefAt(t, Local(k)) == RefAt(s, Local(k))
  {
    hide Stack, Truth, History, Ledger, Unref, RefAt, ValueAt, TruthOf;
    var t := DoConsumeChild(s, h);
    if BuiltValue(s, h) {
      ConsumeChildCells(s, h);
    } else {
      SameCellsKeepsLedger(s, t);
    }
    QuietKeeps(s, t);
    FreshAdvances(s, t);
  }

  lemma GetKeeps(s: State, n: string)
    requires Core(s)
    ensures var t := DoGet(s, n);
            Core(t) && Advances(s, t) && t.frames == s.frames && forall k :: RefAt(t, Local(k)) == RefAt(s, Local(k))
  {
    hide Stack, Truth, History, Ledger, RefAt, ValueAt, Placed, HandleOk;
    var t := DoGet(s, n);
    SameCellsKeepsLedger(s, t);
    QuietKeeps(s, t);
    GetPlaced(s, n);
    forall h | h in t.handles ensures HandleOk(t, h) {
      GetHandleOk(s, n, h);
    }
  }

  lemma GetPlaced(s: State, n: string)
    requires Placed(s)
    ensures Placed(DoGet(s, n))
  {
    var t := DoGet(s, n);
    forall c | RefAt(t, c) != NO_REF ensures Home(t, c) {
      assert RefAt(s, c) == RefAt(t, c);
      assert Home(s, c);
    }
  }

  lemma GetHandleOk(s: State, n: string, h: nat)
    requires Fresh(s) && Placed(s) && h in DoGet(s, n).handles
    ensures HandleOk(DoGet(s, n), h)
  {
    if h in s.handles { assert HandleOk(s, h); }
  }

  lemma PinKeeps(s: State, h: nat, hint: int)
    requires Core(s) && BuiltValue(s, h) && RefAt(s, Local(0)) == NO_REF
    ensures Core(Pin(s, h, hint)) && Advances(s, Pin(s, h, hint))
  {
    hide Stack, Truth, History, Ledger, Pin, RefAt, ValueAt, TruthOf;
    PinCells(s, h, hint);
    QuietKeeps(s, Pin(s, h, hint));
    FreshAdvances(s, Pin(s, h, hint));
  }

  lemma ReleaseTransientKeeps(s: State, h: nat)
    requires Core(s)
    ensures Core(ReleaseTransient(s, h)) && Advances(s, ReleaseTransient(s, h))
  {
    hide Stack, Truth, History, Ledger, ReleaseTransient, RefAt, ValueAt, TruthOf;
    ReleaseTransientCells(s, h);
    QuietKeeps(s, ReleaseTransient(s, h));
    FreshAdvances(s, ReleaseTransient(s, h));
  }

  // ---- Frames ----------------------------------------------------------------

  // Only the call stack differs, above the frame the drain sits on.
  lemma FramesKeep(s: State, t: State)
    requires Core(s) && Stack(t) && Draining(t) == Draining(s) && (Draining(s) ==> t.frames[1] == s.frames[1])
    requires t == s.(frames := t.frames)
    requires forall i: nat :: RefAt(s, FrameOf(i)) != NO_REF ==> i < |t.frames| && t.frames[i].Toggle?
    ensures Core(t) && Advances(s, t)
  {
    hide Stack, TruthOf, EntryOk, Ledger, HandleOk;
    SameCellsKeepsLedger(s, t);
    forall m | m in t.store ensures TruthOf(t, m) {
      TruthOfKept(s, t, m);
    }
    HistoryKept(s, t);
    forall h | h in t.handles ensures HandleOk(t, h) {
      assert HandleOk(s, h);
      HandleOkFrames(s, t, h);
    }
  }

  lemma HandleOkFrames(s: State, t: State, h: nat)
    requires h in s.handles && HandleOk(s, h) && t == s.(frames := t.frames)
    ensures HandleOk(t, h)
  {}

  lemma FrameCells(s: State, i: nat)
    requires Placed(s) && RefAt(s, FrameOf(i)) != NO_REF
    ensures i < |s.frames| && s.frames[i].Toggle?
  {
    assert Home(s, FrameOf(i));
  }

  lemma PopUserKeeps(s: State)
    requires Core(s) && |s.frames| > 1 && Top(s).User?
    ensures Core(Pop(s)) && Advances(s, Pop(s))
  {
    hide Truth, History, Ledger, Fresh;
    var t := Pop(s);
    var k := |s.frames| - 1;
    assert FrameOk(s, k);
    PassPending(s);
    CallingWhileBusy(s);
    assert t.frames[..k] == s.frames[..k];
    StackKept(s, t, k);
    forall i: nat | RefAt(s, FrameOf(i)) != NO_REF ensures i < |t.frames| && t.frames[i].Toggle? {
      FrameCells(s, i);
    }
    FramesKeep(s, t);
  }

  // Entering a callback from an engine frame.
  lemma EnterKeeps(s: State, fn: Cell, args: seq<Value>, entering: Entering)
    requires Core(s) && |s.frames| % 2 == 0 && (s.frames[1].Drain? ==> s.frames[1].calling.Some?)
    ensures var t := Enter(s, fn, args, entering);
            Core(t) && Advances(s, t) && t.boundaryDone == s.boundaryDone && t.queue == s.queue &&
            (forall k :: RefAt(t, Local(k)) == RefAt(s, Local(k))) &&
            |t.frames| == |s.frames| + 1 && Top(t).User? && t.frames[..|s.frames|] == s.frames
  {
    hide Truth, History, Ledger, Fresh, MintBuilt, RefAt, ValueAt, FrameOk;
    TouchHeld(s, fn);
    var s1 := if entering.callee.CFunction? then MintBuilt(s, entering.hint, FirstOf(args)) else s;
    assert RefAt(s, HandleOf(s.nextHandle)) == NO_REF by { NoHandleYet(s); }
    if entering.callee.CFunction? {
      MintBuiltKeeps(s, entering.hint, FirstOf(args));
      MintBuiltCells(s, entering.hint, FirstOf(args));
    } else {
      assert Advances(s, s) by { hide *; AdvancesRefl(s); }
    }
    var t := Enter(s, fn, args, entering);
    assert t == Push(s1, Top(t)) && s1.frames == s.frames;
    PushUserKeeps(s1, Top(t));
    AdvancesTransitive(s, s1, t);
  }

  lemma AdvancesRefl(s: State)
    ensures Advances(s, s)
  {}

  lemma PushUserKeeps(s: State, f: Frame)
    requires Core(s) && f.User? && |s.frames| % 2 == 0 && (s.frames[1].Drain? ==> s.frames[1].calling.Some?)
    ensures Core(Push(s, f)) && Advances(s, Push(s, f))
    ensures forall c :: RefAt(Push(s, f), c) == RefAt(s, c)
  {
    hide Truth, History, Ledger, Fresh;
    var t := Push(s, f);
    var k := |s.frames|;
    PassPending(s);
    assert t.frames[..k] == s.frames[..k];
    assert FrameOk(t, k);
    StackKept(s, t, k);
    forall i: nat | RefAt(s, FrameOf(i)) != NO_REF ensures i < |t.frames| && t.frames[i].Toggle? {
      FrameCells(s, i);
    }
    FramesKeep(s, t);
  }

  // ---- Steps that touch the record of one behavior ---------------------------

  // n's record changes with its generation, and frame k and those above it are gone; every
  // other cell of a behavior, handle or frame stands.
  ghost predicate RecordChange(s: State, t: State, n: string, k: nat) {
    && n in s.store && 0 < k <= |s.frames| && t.frames == s.frames[..k]
    && (k == 1 ==> !Draining(s))
    && t.log == s.log && t.boundaryDone == s.boundaryDone && t.queue == s.queue && SameHandles(s, t)
    && (forall c: Cell :: !c.Local? && c != RecordOf(n) && (c.FrameOf? ==> c.index < k) ==>
          RefAt(t, c) == RefAt(s, c) && ValueAt(t, c) == ValueAt(s, c))
    && (forall i: nat :: i >= k ==> RefAt(t, FrameOf(i)) == NO_REF)
    && t.store.Keys == s.store.Keys && t.nextSeq == s.nextSeq
    && (forall m :: m in s.store && m != n ==> t.store[m] == s.store[m])
    && t.store[n].declareSeq == s.store[n].declareSeq && t.store[n].tier == s.store[n].tier
    && t.store[n].valueGeneration > s.store[n].valueGeneration
    && (|t.frames| > 2 && t.frames[1].Drain? ==> t.frames[1].calling.Some?)
  }

  lemma RecordChangeKeeps(s: State, t: State, n: string, k: nat)
    requires Core(s) && RecordChange(s, t, n, k) && Ledger(t) && TruthOf(t, n)
    requires Draining(s) ==> n in s.frames[1].pass ==> Pending(t, n)
    ensures Core(t) && Advances(s, t)
  {
    hide Ledger, TruthOf, FrameOk, EntryOk, RefAt, ValueAt, RecordChange, Stack, Truth, History, Placed, Fresh,
      Advances;
    RecordChangeOthers(s, t, n, k);
    RecordChangeStack(s, t, n, k);
    TruthKept(s, t, n);
    HistoryKept(s, t);
    RecordChangePlaced(s, t, n, k);
    RecordChangeAdvances(s, t, n, k);
    assert forall h :: h in t.handles && t.handles[h].BehaviorHandle? ==>
             h in s.handles && t.handles[h] == s.handles[h] by {
      RecordChangeHandles(s, t, n, k);
    }
    FreshAdvances(s, t);
  }

  lemma RecordChangeHandles(s: State, t: State, n: string, k: nat)
    requires RecordChange(s, t, n, k)
    ensures SameHandles(s, t) && t.queue == s.queue && t.boundaryDone == s.boundaryDone
  {
    hide RefAt, ValueAt;
  }

  lemma RecordChangeOthers(s: State, t: State, n: string, k: nat)
    requires RecordChange(s, t, n, k)
    ensures forall m :: m in t.store && m != n ==> SameRecord(s, t, m)
    ensures forall m :: SameSeq(s, t, m)
    ensures SameDrain(s, t) && t.log == s.log && n in t.store
  {
    hide RefAt, ValueAt;
    forall m | m in t.store && m != n ensures SameRecord(s, t, m) {
      assert !RecordOf(m).Local? && RecordOf(m) != RecordOf(n);
    }
  }

  lemma RecordChangeStack(s: State, t: State, n: string, k: nat)
    requires Stack(s) && RecordChange(s, t, n, k)
    requires forall m :: m in t.store && m != n ==> SameRecord(s, t, m)
    requires forall m :: SameSeq(s, t, m)
    requires Draining(s) ==> n in s.frames[1].pass ==> Pending(t, n)
    ensures Stack(t)
  {
    hide RefAt, ValueAt, FrameOk, SameSeq;
    PassPending(s);
    forall m | Draining(s) && m in s.frames[1].pass ensures Pending(t, m) {
      if m != n { assert Pending(s, m) && SameRecord(s, t, m); }
    }
    forall i: nat | i < k
      ensures RefAt(t, FrameOf(i)) == RefAt(s, FrameOf(i)) && ValueAt(t, FrameOf(i)) == ValueAt(s, FrameOf(i))
    {
      assert !FrameOf(i).Local?;
    }
    StackKept(s, t, k);
  }

  lemma RecordChangeAdvances(s: State, t: State, n: string, k: nat)
    requires RecordChange(s, t, n, k)
    ensures Advances(s, t)
  {
    hide RefAt, ValueAt;
    forall m | m in s.store ensures AdvancesOn(s, t, m) {
      assert !DefaultOf(m).Local? && !ImplOf(m).Local? && !RevertOf(m).Local? && !RecordOf(m).Local?;
    }
  }

  lemma RecordChangePlaced(s: State, t: State, n: string, k: nat)
    requires Placed(s) && RecordChange(s, t, n, k)
    ensures Placed(t)
  {
    hide RefAt, ValueAt, Home, RecordChange;
    forall c | RefAt(t, c) != NO_REF ensures Home(t, c) {
      RecordChangeHome(s, t, n, k, c);
    }
    forall m | m in t.store ensures RefAt(t, DefaultOf(m)) != NO_REF && t.store[m].declareSeq <= t.nextSeq {
      RecordChangeDefault(s, t, n, k, m);
    }
    forall l, m | l in t.store && m in t.store && t.store[l].declareSeq == t.store[m].declareSeq ensures l == m {
      RecordChangeSeq(s, t, n, k, l);
      RecordChangeSeq(s, t, n, k, m);
    }
    RecordChangeHandles(s, t, n, k);
  }

  lemma RecordChangeDefault(s: State, t: State, n: string, k: nat, m: string)
    requires RecordChange(s, t, n, k) && m in t.store
    requires m in s.store ==> RefAt(s, DefaultOf(m)) != NO_REF && s.store[m].declareSeq <= s.nextSeq
    ensures RefAt(t, DefaultOf(m)) != NO_REF && t.store[m].declareSeq <= t.nextSeq
  {
    hide RefAt, ValueAt;
    assert !DefaultOf(m).Local? && DefaultOf(m) != RecordOf(n);
  }

  lemma RecordChangeSeq(s: State, t: State, n: string, k: nat, m: string)
    requires RecordChange(s, t, n, k) && m in t.store
    ensures m in s.store && t.store[m].declareSeq == s.store[m].declareSeq
  {
    hide RefAt, ValueAt;
  }

  lemma RecordChangeHome(s: State, t: State, n: string, k: nat, c: Cell)
    requires RecordChange(s, t, n, k) && RefAt(t, c) != NO_REF
    requires RefAt(s, c) != NO_REF ==> Home(s, c)
    ensures Home(t, c)
  {
    hide RefAt, ValueAt;
    if c != RecordOf(n) && !c.Local? {
      if c.FrameOf? { assert c.index < k; }
    }
  }

  lemma RecordLoadSetKeeps(s: State, n: string, author: string, plugin: string)
    requires Core(s) && n in s.store && !s.boundaryDone && !s.store[n].applied && RefAt(s, Local(0)) != NO_REF
    ensures Core(RecordLoadSet(s, n, author, plugin)) && Advances(s, RecordLoadSet(s, n, author, plugin))
  {
    hide Truth, History, Ledger, Fresh, Placed, RecordLoadSet, RefAt, ValueAt, FrameOk;
    var t := RecordLoadSet(s, n, author, plugin);
    RecordLoadSetCells(s, n, author, plugin);
    CallingWhileBusy(s);
    assert Home(s, FrameOf(|s.frames|)) == false;
    assert t.frames == s.frames[..|s.frames|];
    NoFrameCells(s);
    assert RecordChange(s, t, n, |s.frames|) by { if |s.frames| == 1 { assert !Draining(s); } }
    RecordChangeKeeps(s, t, n, |s.frames|);
  }

  lemma NoFrameCells(s: State)
    requires Placed(s)
    ensures forall i: nat :: i >= |s.frames| ==> RefAt(s, FrameOf(i)) == NO_REF
  {
    forall i: nat | i >= |s.frames| ensures RefAt(s, FrameOf(i)) == NO_REF {
      assert !Home(s, FrameOf(i));
    }
  }

  // n is a behavior the drain has invoked, or the drain is over.
  lemma ClearRecordKeeps(s: State, n: string)
    requires Core(s) && n in s.store && (Draining(s) ==> n in s.frames[1].invoked)
    ensures Core(ClearRecord(s, n)) && Advances(s, ClearRecord(s, n))
  {
    hide Truth, History, Ledger, Fresh, Placed, ClearRecord, RefAt, ValueAt, FrameOk;
    var t := ClearRecord(s, n);
    ClearRecordCells(s, n);
    CallingWhileBusy(s);
    PassPending(s);
    assert t.frames == s.frames[..|s.frames|];
    NoFrameCells(s);
    RecordChangeKeeps(s, t, n, |s.frames|);
  }

  // The toggle on top ends without recording its value.
  lemma DropToggleKeeps(s: State)
    requires Core(s) && |s.frames| > 1 && Top(s).Toggle?
    ensures Core(DropToggle(s)) && Advances(s, DropToggle(s))
  {
    hide Ledger, DropToggle, RefAt, ValueAt, FrameOk, TruthOf, HandleOk, EntryOk;
    var t := DropToggle(s);
    var k := |s.frames| - 1;
    DropToggleCells(s);
    assert t.frames == s.frames[..k];
    assert FrameOk(s, k);
    assert k == 1 ==> !Draining(s);
    DropKeepsStack(s, t);
    forall m ensures SameRecord(s, t, m) && SameSeq(s, t, m) {
      assert RecordOf(m) != FrameOf(k);
    }
    forall m | m in t.store ensures TruthOf(t, m) { TruthOfKept(s, t, m); }
    HistoryKept(s, t);
    DropKeepsPlaced(s, t);
    forall m | m in s.store ensures AdvancesOn(s, t, m) {
      assert DefaultOf(m) != FrameOf(k) && ImplOf(m) != FrameOf(k) && RevertOf(m) != FrameOf(k) &&
             RecordOf(m) != FrameOf(k);
    }
    FreshAdvances(s, t);
  }

  lemma DropKeepsStack(s: State, t: State)
    requires Stack(s) && |s.frames| > 1 && t.frames == s.frames[..|s.frames| - 1]
    requires SameBut(s, t, {FrameOf(|s.frames| - 1)}) && t.store == s.store && t.log == s.log &&
             t.boundaryDone == s.boundaryDone
    ensures Stack(t)
  {
    hide RefAt, ValueAt, FrameOk;
    var k := |s.frames| - 1;
    CallingWhileBusy(s);
    PassPending(s);
    forall m | Draining(s) && m in s.frames[1].pass ensures Pending(t, m) {
      assert RecordOf(m) != FrameOf(k);
    }
    assert t.frames[..k] == s.frames[..k];
    forall i: nat | i < k
      ensures RefAt(t, FrameOf(i)) == RefAt(s, FrameOf(i)) && ValueAt(t, FrameOf(i)) == ValueAt(s, FrameOf(i))
    {
      assert FrameOf(i) != FrameOf(k);
    }
    StackKept(s, t, k);
  }

  lemma DropKeepsPlaced(s: State, t: State)
    requires Placed(s) && |s.frames| > 1 && t.frames == s.frames[..|s.frames| - 1]
    requires SameBut(s, t, {FrameOf(|s.frames| - 1)}) && RefAt(t, FrameOf(|s.frames| - 1)) == NO_REF
    requires t.store == s.store && t.nextSeq == s.nextSeq && SameHandles(s, t) && t.boundaryDone == s.boundaryDone &&
             t.queue == s.queue
    ensures Placed(t)
  {
    hide RefAt, ValueAt;
    var c0 := FrameOf(|s.frames| - 1);
    forall c | RefAt(t, c) != NO_REF ensures Home(t, c) {
      assert c != c0;
      assert Home(s, c);
    }
    forall m | m in t.store ensures RefAt(t, DefaultOf(m)) != NO_REF {
      assert DefaultOf(m) != c0;
    }
  }

  // The toggle on top records its value.
  lemma CommitToggleKeeps(s: State)
    requires Core(s) && |s.frames| > 1 && Top(s).Toggle? && Top(s).stage.Implementing? && Top(s).name in s.store
    requires ImplReturned(Top(s).name, Top(s).stage.value) in s.log
    ensures Core(CommitToggle(s)) && Advances(s, CommitToggle(s))
  {
    hide Truth, History, Ledger, Fresh, Placed, CommitToggle, RefAt, ValueAt;
    var t := CommitToggle(s);
    var k := |s.frames| - 1;
    var n := Top(s).name;
    assert FrameOk(s, k);
    assert Draining(s) ==> FrameOk(s, 1);
    CommitToggleCells(s);
    CallingWhileBusy(s);
    PassPending(s);
    NoFrameCells(s);
    assert k == 1 ==> !Draining(s);
    assert RecordChange(s, t, n, k);
    RecordChangeKeeps(s, t, n, k);
  }

  lemma LogKeeps(s: State, e: Entry)
    requires Core(s) && !e.DrainCalled?
    requires e.RevertCalled? ==> ImplCalled(e.name, e.value) in s.log
    ensures Core(Log(s, e)) && Advances(s, Log(s, e))
  {
    hide History, EntryOk;
    var t := Log(s, e);
    SameCellsKeepsLedger(s, t);
    HistoryLogged(s, e);
    LogKeepsStack(s, e);
    LogKeepsTruth(s, e);
  }

  lemma LogKeepsStack(s: State, e: Entry)
    requires Stack(s)
    ensures Stack(Log(s, e))
  {
    var t := Log(s, e);
    CallingWhileBusy(s);
    PassPending(s);
    assert t.frames[..|s.frames|] == s.frames[..|s.frames|];
    StackKept(s, t, |s.frames|);
  }

  lemma LogKeepsTruth(s: State, e: Entry)
    requires Truth(s)
    ensures Truth(Log(s, e))
  {
    hide TruthOf;
    var t := Log(s, e);
    forall m | m in t.store ensures TruthOf(t, m) { TruthOfKept(s, t, m); }
  }

  // A toggle starts: its value moves from the local into a new frame.
  lemma PushToggleKeeps(s: State, n: string, queuedBy: Option<Edge>)
    requires Core(s) && n in s.store && UserOnTop(s) && |s.frames| % 2 == 1 && RefAt(s, Local(0)) != NO_REF
    requires s.boundaryDone || s.store[n].applied
    ensures var t := Move(Push(s, Toggle(n, Reverting(ValueAt(s, Local(0))), queuedBy)), Local(0), FrameOf(|s.frames|));
            Core(t) && Advances(s, t)
  {
    hide Ledger, Move, RefAt, ValueAt, FrameOk, TruthOf, HandleOk, EntryOk, Advances;
    var k := |s.frames|;
    var t := Move(Push(s, Toggle(n, Reverting(ValueAt(s, Local(0))), queuedBy)), Local(0), FrameOf(k));
    NoFrameCells(s);
    PushToggleCells(s, n, queuedBy);
    PushToggleStack(s, t, n, queuedBy);
    forall m ensures SameRecord(s, t, m) && SameSeq(s, t, m) {
      assert RecordOf(m) !in {Local(0), FrameOf(k)};
    }
    PushToggleDrain(s, t);
    forall m | m in t.store ensures TruthOf(t, m) { TruthOfKept(s, t, m); }
    HistoryKept(s, t);
    PushTogglePlaced(s, t);
    PushToggleAdvances(s, t, k);
    FreshAdvances(s, t);
  }

  lemma PushToggleAdvances(s: State, t: State, k: nat)
    requires t.store == s.store && SameBut(s, t, {Local(0), FrameOf(k)})
    ensures Advances(s, t)
  {
    hide RefAt, ValueAt;
    forall m | m in s.store ensures AdvancesOn(s, t, m) {
      assert DefaultOf(m) !in {Local(0), FrameOf(k)} && ImplOf(m) !in {Local(0), FrameOf(k)} &&
             RevertOf(m) !in {Local(0), FrameOf(k)} && RecordOf(m) !in {Local(0), FrameOf(k)};
    }
  }

  lemma PushToggleDrain(s: State, t: State)
    requires s.frames != [] && |t.frames| == |s.frames| + 1 && t.frames[..|s.frames|] == s.frames
    requires t.frames[|s.frames|].Toggle? && t.boundaryDone == s.boundaryDone
    ensures SameDrain(s, t)
  {
    if |s.frames| > 1 { assert t.frames[1] == t.frames[..|s.frames|][1]; }
  }

  lemma PushToggleStack(s: State, t: State, n: string, queuedBy: Option<Edge>)
    requires Stack(s) && Truth(s) && n in s.store && UserOnTop(s) && |s.frames| % 2 == 1
    requires s.boundaryDone || s.store[n].applied
    requires t.frames == s.frames + [Toggle(n, Reverting(ValueAt(s, Local(0))), queuedBy)] &&
             SameBut(s, t, {Local(0), FrameOf(|s.frames|)})
    requires RefAt(t, FrameOf(|s.frames|)) != NO_REF && ValueAt(t, FrameOf(|s.frames|)) == ValueAt(s, Local(0))
    requires t.store == s.store && t.log == s.log && t.boundaryDone == s.boundaryDone
    ensures Stack(t)
  {
    hide RefAt, ValueAt;
    var k := |s.frames|;
    CallingWhileBusy(s);
    PassPending(s);
    forall m | Draining(s) && m in s.frames[1].pass ensures Pending(t, m) {
      assert RecordOf(m) !in {Local(0), FrameOf(k)};
    }
    assert TruthOf(s, n);
    if k > 1 { assert t.frames[1] == s.frames[1]; }
    assert FrameOk(t, k);
    assert t.frames[..k] == s.frames[..k];
    forall i: nat | i < k
      ensures RefAt(t, FrameOf(i)) == RefAt(s, FrameOf(i)) && ValueAt(t, FrameOf(i)) == ValueAt(s, FrameOf(i))
    {
      assert FrameOf(i) !in {Local(0), FrameOf(k)};
    }
    StackKept(s, t, k);
  }

  lemma PushTogglePlaced(s: State, t: State)
    requires Placed(s) && |t.frames| == |s.frames| + 1 && t.frames[..|s.frames|] == s.frames &&
             t.frames[|s.frames|].Toggle?
    requires SameBut(s, t, {Local(0), FrameOf(|s.frames|)})
    requires t.store == s.store && t.nextSeq == s.nextSeq && SameHandles(s, t) && t.boundaryDone == s.boundaryDone &&
             t.queue == s.queue
    ensures Placed(t)
  {
    hide RefAt, ValueAt;
    forall c | RefAt(t, c) != NO_REF ensures Home(t, c) {
      if c !in {Local(0), FrameOf(|s.frames|)} {
        assert Home(s, c);
        if c.FrameOf? { assert t.frames[c.index] == t.frames[..|s.frames|][c.index]; }
      }
    }
    forall m | m in t.store ensures RefAt(t, DefaultOf(m)) != NO_REF {
      assert DefaultOf(m) !in {Local(0), FrameOf(|s.frames|)};
    }
  }

  // revert is called with the value on record, which the implementation was called with.
  lemma CallRevertKeeps(s: State, n: string, entering: Entering)
    requires Core(s) && n in s.store && s.store[n].applied
    requires |s.frames| % 2 == 0 && (s.frames[1].Drain? ==> s.frames[1].calling.Some?)
    ensures var t := CallRevert(s, n, entering);
            Core(t) && Advances(s, t) && t.boundaryDone == s.boundaryDone && t.queue == s.queue && Top(t).User? &&
            (forall k :: RefAt(t, Local(k)) == RefAt(s, Local(k))) &&
            |t.frames| == |s.frames| + 1 && t.frames[..|s.frames|] == s.frames
  {
    hide Ledger, Placed, Stack, Fresh, History, Enter, Advances;
    TouchHeld(s, RecordOf(n));
    assert TruthOf(s, n);
    var s1 := Log(s, RevertCalled(n, ValueAt(s, RecordOf(n))));
    LogKeeps(s, RevertCalled(n, ValueAt(s, RecordOf(n))));
    EnterKeeps(s1, RevertOf(n), [ValueAt(s, RecordOf(n))], entering);
    AdvancesTransitive(s, s1, CallRevert(s, n, entering));
  }

  // The toggle on top moves on to its implementation stage.
  lemma ImplementingKeeps(s: State, v: Value)
    requires Core(s) && |s.frames| > 1 && Top(s).Toggle? && |s.frames| % 2 == 0
    requires v == ValueAt(s, FrameOf(|s.frames| - 1)) && ImplCalled(Top(s).name, v) in s.log
    ensures var t := SetTop(s, Toggle(Top(s).name, Implementing(v), Top(s).queuedBy)); Core(t) && Advances(s, t)
  {
    hide Ledger, Truth, Fresh, History, Placed;
    var k := |s.frames| - 1;
    var t := SetTop(s, Toggle(Top(s).name, Implementing(v), Top(s).queuedBy));
    assert FrameOk(s, k);
    CallingWhileBusy(s);
    PassPending(s);
    assert t.frames[..k] == s.frames[..k];
    assert FrameOk(t, k);
    StackKept(s, t, k);
    assert forall i: nat :: RefAt(s, FrameOf(i)) != NO_REF ==> i < |t.frames| && t.frames[i].Toggle? by {
      forall i: nat | RefAt(s, FrameOf(i)) != NO_REF ensures i < |t.frames| && t.frames[i].Toggle? {
        FrameCells(s, i);
      }
    }
    FramesKeep(s, t);
  }

  lemma CallImplementationKeeps(s: State, entering: Entering)
    requires Core(s) && |s.frames| > 1 && Top(s).Toggle? && |s.frames| % 2 == 0
    ensures var t := CallImplementation(s, entering);
            Core(t) && Advances(s, t) && t.boundaryDone == s.boundaryDone && t.queue == s.queue && Top(t).User? &&
            (forall k :: RefAt(t, Local(k)) == RefAt(s, Local(k))) &&
            |t.frames| == |s.frames| + 1
  {
    hide Ledger, Placed, Truth, Fresh, History, Enter, FrameOk, Advances;
    var n := Top(s).name;
    var v := ValueAt(s, FrameOf(|s.frames| - 1));
    var s1 := Log(s, ImplCalled(n, v));
    LogKeeps(s, ImplCalled(n, v));
    ImplementingKeeps(s1, v);
    var s2 := SetTop(s1, Toggle(n, Implementing(v), Top(s).queuedBy));
    CallingWhileBusy(s1);
    CallingWhileBusy(s2);
    assert s2 == Log(SetTop(s, Toggle(n, Implementing(v), Top(s).queuedBy)), ImplCalled(n, v));
    assert s2.frames[1].Drain? ==> |s.frames| > 2;
    EnterKeeps(s2, ImplOf(n), [v], entering);
    AdvancesTransitive(s, s1, s2);
    AdvancesTransitive(s, s2, CallImplementation(s, entering));
  }

  lemma BeginToggleKeeps(s: State, n: string, queuedBy: Option<Edge>, entering: Entering)
    requires Core(s) && n in s.store && UserOnTop(s) && |s.frames| % 2 == 1
    requires RefAt(s, Local(0)) != NO_REF && forall k :: k != 0 ==> RefAt(s, Local(k)) == NO_REF
    requires s.boundaryDone || s.store[n].applied
    ensures var t := BeginToggle(s, n, queuedBy, entering); Inv(t) && Advances(s, t)
  {
    hide Core, Advances, CallRevert, CallImplementation, Move, Unref;
    if RefAt(s, RevertOf(n)) == NO_REF {
      DropLocalKeeps(s);
    } else {
      var k := |s.frames|;
      var s1 := Move(Push(s, Toggle(n, Reverting(ValueAt(s, Local(0))), queuedBy)), Local(0), FrameOf(k));
      PushToggleKeeps(s, n, queuedBy);
      PushToggleFacts(s, n, queuedBy);
      assert s1.frames[1].Drain? ==> s1.frames[1].calling.Some? by { CallingWhileBusyCore(s1); }
      if s.store[n].applied {
        CallRevertKeeps(s1, n, entering);
        AdvancesTransitive(s, s1, CallRevert(s1, n, entering));
      } else {
        CallImplementationKeeps(s1, entering);
        AdvancesTransitive(s, s1, CallImplementation(s1, entering));
      }
    }
  }

  lemma CallingWhileBusyCore(s: State)
    requires Core(s)
    ensures |s.frames| > 1 && s.frames[1].Drain? && (|s.frames| > 2 || Top(s).Toggle?) ==> s.frames[1].calling.Some?
  {
    CallingWhileBusy(s);
  }

  lemma PushToggleFacts(s: State, n: string, queuedBy: Option<Edge>)
    requires Core(s)
    ensures var t := Move(Push(s, Toggle(n, Reverting(ValueAt(s, Local(0))), queuedBy)), Local(0), FrameOf(|s.frames|));
            t.frames == s.frames + [Toggle(n, Reverting(ValueAt(s, Local(0))), queuedBy)] &&
            RefAt(t, Local(0)) == NO_REF && t.store == s.store &&
            (forall k :: k != 0 ==> RefAt(t, Local(k)) == RefAt(s, Local(k)))
  {
    hide Move, RefAt, ValueAt;
    NoFrameCells(s);
    PushToggleCells(s, n, queuedBy);
  }

  // The new value is released without becoming the record.
  lemma DropLocalKeeps(s: State)
    requires Core(s)
    ensures var t := Unref(s, Local(0));
            Core(t) && Advances(s, t) && SameFrame(s, t) && RefAt(t, Local(0)) == NO_REF &&
            forall k :: k != 0 ==> RefAt(t, Local(k)) == RefAt(s, Local(k))
  {
    hide Stack, Truth, History, Ledger, Unref, RefAt, ValueAt;
    UnrefKeepsLedger(s, Local(0));
    QuietKeeps(s, Unref(s, Local(0)));
    FreshAdvances(s, Unref(s, Local(0)));
  }
}
