/**
 What each engine operation does to the cells, given an exact ledger.  The ledger stays exact
 in every case: no operation loses a reference, releases one twice or reads a freed slot.
 */
module BehaviorEffects {
  import opened Options
  import opened RefLedger
  import opened BehaviorSteps

  lemma MintBuiltCells(s: State, hint: int, v: Value)
    requires Ledger(s) && RefAt(s, HandleOf(s.nextHandle)) == NO_REF
    ensures var t := MintBuilt(s, hint, v); var h := s.nextHandle;
            Ledger(t) && SameFrame(s, t) && SameBut(s, t, {HandleOf(h)}) &&
            RefAt(t, HandleOf(h)) != NO_REF && ValueAt(t, HandleOf(h)) == v &&
            t.handles == s.handles[h := BuiltHandle(false)] && t.nextHandle == h + 1
  {
    hide Ledger, Ref, Unref, Move, FreshId, Deref;
    var h := s.nextHandle;
    var s1 := s.(handles := s.handles[h := BuiltHandle(false)], nextHandle := h + 1);
    SameCellsKeepsLedger(s, s1);
    RefKeepsLedger(s1, hint, v, HandleOf(h));
  }

  lemma ConsumeChildCells(s: State, h: nat)
    requires Ledger(s) && BuiltValue(s, h)
    ensures var t := DoConsumeChild(s, h);
            Ledger(t) && SameFrame(s, t) && SameBut(s, t, {HandleOf(h)}) && RefAt(t, HandleOf(h)) == NO_REF &&
            t.handles == s.handles[h := BuiltHandle(true)] && t.nextHandle == s.nextHandle
  {
    hide Ledger, Ref, Unref, Move, FreshId, Deref;
    UnrefKeepsLedger(s, HandleOf(h));
    SameCellsKeepsLedger(Unref(s, HandleOf(h)), DoConsumeChild(s, h));
  }

  lemma PinCells(s: State, h: nat, hint: int)
    requires Ledger(s) && BuiltValue(s, h) && RefAt(s, Local(0)) == NO_REF
    ensures var t := Pin(s, h, hint);
            Ledger(t) && SameFrame(s, t) && SameBut(s, t, {HandleOf(h), Local(0)}) &&
            RefAt(t, HandleOf(h)) == NO_REF && RefAt(t, Local(0)) != NO_REF &&
            ValueAt(t, Local(0)) == ValueAt(s, HandleOf(h)) &&
            (RefAt(t, Local(0)) == NIL_REF <==> ValueAt(s, HandleOf(h)).Nil?) &&
            t.handles == s.handles[h := BuiltHandle(true)] && t.nextHandle == s.nextHandle
  {
    hide Ledger, Ref, Unref, Move, FreshId, Deref;
    var v := ValueAt(s, HandleOf(h));
    RefKeepsLedger(s, hint, v, Local(0));
    var s1 := Ref(s, hint, v, Local(0));
    UnrefKeepsLedger(s1, HandleOf(h));
    SameCellsKeepsLedger(Unref(s1, HandleOf(h)), Pin(s, h, hint));
  }

  lemma TrampolinesCells(s: State, hasRevert: bool, implHint: int, revertHint: int)
    requires Ledger(s) && RefAt(s, Local(1)) == NO_REF && RefAt(s, Local(2)) == NO_REF
    ensures var t := Trampolines(s, hasRevert, implHint, revertHint);
            Ledger(t) && SameFrame(s, t) && SameBut(s, t, {Local(1), Local(2)}) &&
            RefAt(t, Local(1)) != NO_REF && (RefAt(t, Local(2)) != NO_REF <==> hasRevert) &&
            ValueAt(t, Local(1)) == IMPL_TRAMPOLINE && (hasRevert ==> ValueAt(t, Local(2)) == REVERT_TRAMPOLINE) &&
            t.handles == s.handles && t.nextHandle == s.nextHandle
  {
    hide Ledger, Ref, Unref, Move, FreshId, Deref;
    RefKeepsLedger(s, implHint, IMPL_TRAMPOLINE, Local(1));
    var s1 := Ref(s, implHint, IMPL_TRAMPOLINE, Local(1));
    RefKeepsLedger(s1, revertHint, REVERT_TRAMPOLINE, Local(2));
  }

  lemma DropLocalsCells(s: State)
    requires Ledger(s)
    ensures var t := Unref(Unref(Unref(s, Local(0)), Local(1)), Local(2));
            Ledger(t) && SameFrame(s, t) && SameBut(s, t, {Local(0), Local(1), Local(2)}) &&
            RefAt(t, Local(0)) == NO_REF && RefAt(t, Local(1)) == NO_REF && RefAt(t, Local(2)) == NO_REF &&
            t.handles == s.handles && t.nextHandle == s.nextHandle
  {
    hide Ledger, Ref, Unref, Move, FreshId, Deref;
    UnrefKeepsLedger(s, Local(0));
    UnrefKeepsLedger(Unref(s, Local(0)), Local(1));
    UnrefKeepsLedger(Unref(Unref(s, Local(0)), Local(1)), Local(2));
  }

  lemma AdoptCells(s: State, n: string, tier: Tier)
    requires Ledger(s)
    requires RefAt(s, DefaultOf(n)) == NO_REF && RefAt(s, ImplOf(n)) == NO_REF && RefAt(s, RevertOf(n)) == NO_REF
    ensures var t := Adopt(s, n, tier);
            Ledger(t) && SameBut(s, t, {Local(0), Local(1), Local(2), DefaultOf(n), ImplOf(n), RevertOf(n)}) &&
            RefAt(t, Local(0)) == NO_REF && RefAt(t, Local(1)) == NO_REF && RefAt(t, Local(2)) == NO_REF &&
            RefAt(t, DefaultOf(n)) == RefAt(s, Local(0)) && ValueAt(t, DefaultOf(n)) == ValueAt(s, Local(0)) &&
            RefAt(t, ImplOf(n)) == RefAt(s, Local(1)) && RefAt(t, RevertOf(n)) == RefAt(s, Local(2)) &&
            ValueAt(t, ImplOf(n)) == ValueAt(s, Local(1)) && ValueAt(t, RevertOf(n)) == ValueAt(s, Local(2)) &&
            t.store == s.store[n := Behavior(tier, false, "", "", s.nextSeq + 1, 1)] && t.nextSeq == s.nextSeq + 1 &&
            t.handles == s.handles && t.nextHandle == s.nextHandle &&
            t.frames == s.frames && t.log == s.log && t.boundaryDone == s.boundaryDone && t.queue == s.queue
  {
    hide Ledger, Ref, Unref, Move, FreshId, Deref;
    var s1 := WithBehavior(s, n, Behavior(tier, false, "", "", s.nextSeq + 1, 1)).(nextSeq := s.nextSeq + 1);
    SameCellsKeepsLedger(s, s1);
    AdoptMoves(s1, n);
  }

  // The three references pass from the locals to the behavior.
  lemma AdoptMoves(s: State, n: string)
    requires Ledger(s)
    requires RefAt(s, DefaultOf(n)) == NO_REF && RefAt(s, ImplOf(n)) == NO_REF && RefAt(s, RevertOf(n)) == NO_REF
    ensures var t := Move(Move(Move(s, Local(0), DefaultOf(n)), Local(1), ImplOf(n)), Local(2), RevertOf(n));
            Ledger(t) && SameBut(s, t, {Local(0), Local(1), Local(2), DefaultOf(n), ImplOf(n), RevertOf(n)}) &&
            RefAt(t, Local(0)) == NO_REF && RefAt(t, Local(1)) == NO_REF && RefAt(t, Local(2)) == NO_REF &&
            RefAt(t, DefaultOf(n)) == RefAt(s, Local(0)) && ValueAt(t, DefaultOf(n)) == ValueAt(s, Local(0)) &&
            RefAt(t, ImplOf(n)) == RefAt(s, Local(1)) && RefAt(t, RevertOf(n)) == RefAt(s, Local(2)) &&
            ValueAt(t, ImplOf(n)) == ValueAt(s, Local(1)) && ValueAt(t, RevertOf(n)) == ValueAt(s, Local(2))
  {
    hide Ledger, Move, RefAt, ValueAt;
    MoveKeepsLedger(s, Local(0), DefaultOf(n));
    var s1 := Move(s, Local(0), DefaultOf(n));
    MoveKeepsLedger(s1, Local(1), ImplOf(n));
    MoveKeepsLedger(Move(s1, Local(1), ImplOf(n)), Local(2), RevertOf(n));
  }

  lemma ReleaseTransientCells(s: State, h: nat)
    requires Ledger(s)
    ensures var t := ReleaseTransient(s, h);
            Ledger(t) && SameFrame(s, t) && SameBut(s, t, {HandleOf(h)}) && RefAt(t, HandleOf(h)) == NO_REF &&
            t.handles == s.handles - {h} && t.nextHandle == s.nextHandle
  {
    hide Ledger, Ref, Unref, Move, FreshId, Deref;
    UnrefKeepsLedger(s, HandleOf(h));
    SameCellsKeepsLedger(Unref(s, HandleOf(h)), ReleaseTransient(s, h));
  }

  // Entering a callback: a frame for the user code, and for a C function a transient handle.
  lemma EnterCells(s: State, fn: Cell, args: seq<Value>, entering: Entering)
    requires Ledger(s) && RefAt(s, HandleOf(s.nextHandle)) == NO_REF
    ensures var t := Enter(s, fn, args, entering); var h := s.nextHandle;
            Ledger(t) && SameBut(s, t, {HandleOf(h)}) &&
            t.store == s.store && t.log == s.log && t.boundaryDone == s.boundaryDone && t.queue == s.queue &&
            t.nextSeq == s.nextSeq &&
            t.frames == s.frames + [User(if entering.callee.CFunction? then Some(h) else None, fn, args)] &&
            (if entering.callee.CFunction?
             then t.handles == s.handles[h := BuiltHandle(false)] && t.nextHandle == h + 1 &&
             ValueAt(t, HandleOf(h)) == FirstOf(args) && RefAt(t, HandleOf(h)) != NO_REF
             else t.handles == s.handles && t.nextHandle == h && RefAt(t, HandleOf(h)) == NO_REF)
  {
    hide Ledger, Ref, Unref, Move, FreshId, Deref;
    TouchHeld(s, fn);
    var t := Enter(s, fn, args, entering);
    if entering.callee.CFunction? {
      MintBuiltCells(s, entering.hint, FirstOf(args));
      SameCellsKeepsLedger(MintBuilt(s, entering.hint, FirstOf(args)), t);
    } else {
      SameCellsKeepsLedger(s, t);
    }
  }

  lemma ReleaseRecordCells(s: State, n: string)
    requires Ledger(s)
    ensures var t := ReleaseRecord(s, n);
            Ledger(t) && SameBut(s, t, {RecordOf(n)}) && SameFrame(s, t) && SameHandles(s, t) &&
            RefAt(t, RecordOf(n)) == NO_REF
  {
    hide Ledger, Unref;
    UnrefKeepsLedger(s, RecordOf(n));
  }

  lemma RecordLoadSetCells(s: State, n: string, author: string, plugin: string)
    requires Ledger(s) && n in s.store
    ensures var t := RecordLoadSet(s, n, author, plugin);
            Ledger(t) && SameBut(s, t, {Local(0), RecordOf(n)}) && RefAt(t, Local(0)) == NO_REF &&
            RefAt(t, RecordOf(n)) == RefAt(s, Local(0)) && ValueAt(t, RecordOf(n)) == ValueAt(s, Local(0)) &&
            t.store == s.store[n := s.store[n].(setterAuthor := author, setterPlugin := plugin,
                                                valueGeneration := s.store[n].valueGeneration + 1)] &&
            t.handles == s.handles && t.nextHandle == s.nextHandle && t.nextSeq == s.nextSeq &&
            t.frames == s.frames && t.log == s.log && t.boundaryDone == s.boundaryDone && t.queue == s.queue
  {
    hide Ledger, Ref, Unref, Move, FreshId, Deref;
    hide ReleaseRecord;
    ReleaseRecordCells(s, n);
    var s1 := ReleaseRecord(s, n);
    MoveKeepsLedger(s1, Local(0), RecordOf(n));
    SameCellsKeepsLedger(Move(s1, Local(0), RecordOf(n)), RecordLoadSet(s, n, author, plugin));
  }

  lemma ClearRecordCells(s: State, n: string)
    requires Ledger(s) && n in s.store
    ensures var t := ClearRecord(s, n);
            Ledger(t) && SameBut(s, t, {RecordOf(n)}) && RefAt(t, RecordOf(n)) == NO_REF &&
            t.store == s.store[n := s.store[n].(applied := false, setterAuthor := "", setterPlugin := "",
                                                valueGeneration := s.store[n].valueGeneration + 1)] &&
            t.handles == s.handles && t.nextHandle == s.nextHandle && t.nextSeq == s.nextSeq &&
            t.frames == s.frames && t.log == s.log && t.boundaryDone == s.boundaryDone && t.queue == s.queue
  {
    hide Ledger, Ref, Unref, Move, FreshId, Deref;
    UnrefKeepsLedger(s, RecordOf(n));
    SameCellsKeepsLedger(Unref(s, RecordOf(n)), ClearRecord(s, n));
  }

  lemma DropToggleCells(s: State)
    requires Ledger(s) && s.frames != [] && Top(s).Toggle?
    ensures var t := DropToggle(s); var c := FrameOf(|s.frames| - 1);
            Ledger(t) && SameBut(s, t, {c}) && RefAt(t, c) == NO_REF &&
            t.store == s.store && t.handles == s.handles && t.nextHandle == s.nextHandle && t.nextSeq == s.nextSeq &&
            t.frames == s.frames[..|s.frames| - 1] && t.log == s.log && t.boundaryDone == s.boundaryDone &&
            t.queue == s.queue
  {
    hide Ledger, Ref, Unref, Move, FreshId, Deref;
    var c := FrameOf(|s.frames| - 1);
    UnrefKeepsLedger(s, c);
    SameCellsKeepsLedger(Unref(s, c), DropToggle(s));
  }

  lemma CommitToggleCells(s: State)
    requires Ledger(s) && s.frames != [] && Top(s).Toggle? && Top(s).name in s.store
    ensures var t := CommitToggle(s); var c := FrameOf(|s.frames| - 1); var n := Top(s).name;
            Ledger(t) && SameBut(s, t, {c, RecordOf(n)}) && RefAt(t, c) == NO_REF &&
            RefAt(t, RecordOf(n)) == RefAt(s, c) && ValueAt(t, RecordOf(n)) == ValueAt(s, c) &&
            t.store == s.store[n := s.store[n].(applied := true, valueGeneration := s.store[n].valueGeneration + 1)] &&
            t.handles == s.handles && t.nextHandle == s.nextHandle && t.nextSeq == s.nextSeq &&
            t.frames == s.frames[..|s.frames| - 1] && t.log == s.log && t.boundaryDone == s.boundaryDone &&
            t.queue == s.queue
  {
    hide Ledger, Ref, Unref, Move, FreshId, Deref;
    var c := FrameOf(|s.frames| - 1);
    var n := Top(s).name;
    hide ReleaseRecord;
    ReleaseRecordCells(s, n);
    var s1 := ReleaseRecord(s, n);
    MoveKeepsLedger(s1, c, RecordOf(n));
    SameCellsKeepsLedger(Move(s1, c, RecordOf(n)), CommitToggle(s));
  }

  // The new value moves from the setter's local into the toggle frame.
  lemma PushToggleCells(s: State, n: string, queuedBy: Option<Edge>)
    requires Ledger(s) && RefAt(s, FrameOf(|s.frames|)) == NO_REF
    ensures var c := FrameOf(|s.frames|);
            var t := Move(Push(s, Toggle(n, Reverting(ValueAt(s, Local(0))), queuedBy)), Local(0), c);
            Ledger(t) && SameBut(s, t, {Local(0), c}) && RefAt(t, Local(0)) == NO_REF &&
            RefAt(t, c) == RefAt(s, Local(0)) && ValueAt(t, c) == ValueAt(s, Local(0)) &&
            t.store == s.store && t.handles == s.handles && t.nextHandle == s.nextHandle && t.nextSeq == s.nextSeq &&
            t.frames == s.frames + [Toggle(n, Reverting(ValueAt(s, Local(0))), queuedBy)] &&
            t.log == s.log && t.boundaryDone == s.boundaryDone && t.queue == s.queue
  {
    hide Ledger, Ref, Unref, Move, FreshId, Deref;
    var s1 := Push(s, Toggle(n, Reverting(ValueAt(s, Local(0))), queuedBy));
    SameCellsKeepsLedger(s, s1);
    MoveKeepsLedger(s1, Local(0), FrameOf(|s.frames|));
  }
}
