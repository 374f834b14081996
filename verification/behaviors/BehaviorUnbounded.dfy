/**
 What the bound on the drain does not say: while implementations go on declaring and setting, the
 boundary goes on.  For every k there is a run whose drain invokes k implementations, each of which
 declares and sets the next behavior; only the finite scripts of `RunApplyBoundary` end such a drain.
 */
module BehaviorUnbounded {
  import opened Options
  import opened RefLedger
  import opened BehaviorSteps
  import opened BehaviorEffects
  import opened BehaviorInvariant
  import opened BehaviorPreservation
  import opened BehaviorRuns
  import opened BehaviorTheorems
  import opened BehaviorScripts
  import opened BehaviorDispositions
  import opened BehaviorNil

  const PLAIN := Entering(LuaFunction, 0)

  // The k-th behavior.
  function NameOf(k: nat): (n: string)
    ensures |n| == k + 1
  {
    if k == 0 then "b" else NameOf(k - 1) + "b"
  }

  // Nothing waits to be drained but what is in `names`.
  ghost predicate OnlyPending(s: State, names: set<string>) {
    forall n :: Pending(s, n) ==> n in names
  }

  // A Lua implementation of n that the boundary called with v.
  function Implementation(n: string, v: Value): Frame {
    User(None, ImplOf(n), [v])
  }

  // The drain has invoked k implementations, and the last of them is running.
  ghost predicate Running(s: State, k: nat) {
    && Inv(s) && !s.boundaryDone && |DrainCalls(s.log)| == k
    && |s.frames| == 3 && s.frames[0] == Main && s.frames[1].Drain? && s.frames[1].pass == [] &&
       s.frames[2].User? && s.frames[2].transient == None
    && OnlyPending(s, s.frames[1].invoked)
    && forall n :: n in s.store ==> |n| <= k
  }

  // User code before the boundary, and in an implementation, declares a behavior and sets it.
  lemma DeclareAndSet(from: State, s: State, n: string, revert: bool, names: set<string>) returns (t: State)
    requires Inv(s) && Reaches(from, s) && UserOnTop(s) && !s.boundaryDone && n !in s.store && OnlyPending(s, names)
    ensures Inv(t) && Reaches(from, t) && t.frames == s.frames && t.log == s.log && !t.boundaryDone
    ensures t.store.Keys == s.store.Keys + {n} && Pending(t, n) && OnlyPending(t, names + {n})
    ensures RefAt(t, RevertOf(n)) != NO_REF <==> revert
  {
    hide Inv, Reaches, Step, BuiltValue, Pending, Advances, SameRecords, OnlyPending, RefAt;
    var s1 := BuildOne(from, s);
    BuiltRecords(s, s1, n);
    var h1 := s.nextHandle;
    OneStep(from, s1, Declare(n, Plugin, h1, revert, 0, 0, 0));
    var s2 := Step(s1, Declare(n, Plugin, h1, revert, 0, 0, 0));
    DeclareRecords(s1, n, h1, revert);
    var s3 := BuildOne(from, s2);
    BuiltRecords(s2, s3, n);
    var h2 := s2.nextHandle;
    OneStep(from, s3, Set(n, h2, "", "", false, 0, PLAIN));
    t := Step(s3, Set(n, h2, "", "", false, 0, PLAIN));
    SetRecords(s3, n, h2);
    StepKeeps(s2, Build(Obj(1), 0));
    StepKeeps(s3, Set(n, h2, "", "", false, 0, PLAIN));
    RevertStands(s2, s3, n);
    RevertStands(s3, t, n);
    SameRecordsTransitive(s, s1, s2, n);
    SameRecordsTransitive(s2, s3, t, n);
    PendingAfter(s, s2, t, n, names);
  }

  // Neither verb touches the record of another behavior.
  ghost predicate SameRecords(s: State, t: State, n: string) {
    forall m :: m != n ==>
      (m in t.store <==> m in s.store) && RefAt(t, RecordOf(m)) == RefAt(s, RecordOf(m)) &&
      (m in s.store ==> t.store[m] == s.store[m])
  }

  lemma BuiltRecords(s: State, t: State, n: string)
    requires t.store == s.store && forall m :: RefAt(t, RecordOf(m)) == RefAt(s, RecordOf(m))
    ensures SameRecords(s, t, n)
  {
    hide RefAt;
  }

  lemma SameRecordsTransitive(s: State, t: State, u: State, n: string)
    requires SameRecords(s, t, n) && SameRecords(t, u, n)
    ensures SameRecords(s, u, n)
  {
    hide RefAt;
  }

  lemma PendingAfter(s: State, u: State, t: State, n: string, names: set<string>)
    requires OnlyPending(s, names) && SameRecords(s, u, n) && SameRecords(u, t, n)
    ensures OnlyPending(t, names + {n})
  {
    hide RefAt;
    forall m | Pending(t, m) && m != n ensures Pending(s, m) {
      assert RefAt(u, RecordOf(m)) == RefAt(s, RecordOf(m));
    }
  }

  // A step keeps the revert of a behavior.
  lemma RevertStands(s: State, t: State, n: string)
    requires Advances(s, t) && n in s.store
    ensures n in t.store && RefAt(t, RevertOf(n)) == RefAt(s, RevertOf(n))
  {
    hide RefAt, ValueAt;
    assert AdvancesOn(s, t, n);
  }

  lemma BuildOne(from: State, s: State) returns (t: State)
    requires Inv(s) && Reaches(from, s) && UserOnTop(s)
    ensures t == Step(s, Build(Obj(1), 0)) && Inv(t) && Reaches(from, t) && BuiltValue(t, s.nextHandle)
    ensures t.frames == s.frames && t.log == s.log && t.boundaryDone == s.boundaryDone && t.store == s.store
    ensures forall m :: RefAt(t, RecordOf(m)) == RefAt(s, RecordOf(m))
  {
    hide Inv, Reaches, MintBuilt, Ledger, RefAt, ValueAt;
    t := Step(s, Build(Obj(1), 0));
    OneStep(from, s, Build(Obj(1), 0));
    InvNoHandle(s);
    MintBuiltCells(s, 0, Obj(1));
  }

  lemma InvNoHandle(s: State)
    requires Inv(s)
    ensures Ledger(s) && RefAt(s, HandleOf(s.nextHandle)) == NO_REF
  {
    hide Ledger, Placed, Stack, Truth, Fresh, History, RefAt;
    NoHandle(s);
  }

  lemma DeclareRecords(s: State, n: string, h: nat, revert: bool)
    requires Inv(s) && UserOnTop(s) && !s.boundaryDone && BuiltValue(s, h) && n !in s.store
    ensures var t := Step(s, Declare(n, Plugin, h, revert, 0, 0, 0));
            (RefAt(t, RevertOf(n)) != NO_REF <==> revert) && t.store.Keys == s.store.Keys + {n} &&
            !t.store[n].applied && SameRecords(s, t, n) &&
            t.frames == s.frames && t.log == s.log && !t.boundaryDone
  {
    hide Inv, DoDeclare, RefAt, ValueAt, BuiltValue;
    DeclaredValue(s, n, Plugin, h, revert, 0, 0, 0);
  }

  lemma SetRecords(s: State, n: string, h: nat)
    requires Inv(s) && UserOnTop(s) && !s.boundaryDone && BuiltValue(s, h) && n in s.store && !s.store[n].applied
    ensures var t := Step(s, Set(n, h, "", "", false, 0, PLAIN));
            t.store.Keys == s.store.Keys && Pending(t, n) && SameRecords(s, t, n) &&
            t.frames == s.frames && t.log == s.log && !t.boundaryDone
  {
    hide Inv, DoSet, RefAt, ValueAt, BuiltValue;
    LoadSetValue(s, n, h, "", "", false, 0, PLAIN);
  }

  // The idle drain takes up a behavior that was set meanwhile.
  lemma DrainOne(from: State, s: State, n: string, k: nat) returns (t: State)
    requires Inv(s) && Reaches(from, s) && !s.boundaryDone && |DrainCalls(s.log)| == k
    requires |s.frames| == 2 && s.frames[0] == Main && s.frames[1].Drain? && s.frames[1].pass == []
    requires Pending(s, n) && n !in s.frames[1].invoked && OnlyPending(s, s.frames[1].invoked + {n})
    requires forall m :: m in s.store ==> |m| <= k + 1
    ensures Reaches(from, t) && Running(t, k + 1) && Advances(s, t) && t.frames[1].calling == Some(n)
    ensures n in t.store && t.store[n].applied
    ensures exists v, p :: t.log == s.log + [DrainCalled(n, v, p)] + [ImplCalled(n, v)]
  {
    hide Inv, Reaches, Step, Pending, DrainCalls, Advances;
    assert IsPass(s, s.frames[1].invoked, [n]) by { OnePass(s, n); }
    SnapshotTaken(s, [n]);
    OneStep(from, s, Snapshot([n]));
    var s1 := Step(s, Snapshot([n]));
    OneStep(from, s1, DrainNext(PLAIN));
    t := Step(s1, DrainNext(PLAIN));
    Drains(s1, n);
    StepKeeps(s, Snapshot([n]));
    StepKeeps(s1, DrainNext(PLAIN));
    AdvancesTransitive(s, s1, t);
    assert t.log == s.log + [DrainCalled(n, ValueAt(s1, RecordOf(n)), s1.frames[1].passNo)] +
                    [ImplCalled(n, ValueAt(s1, RecordOf(n)))];
    DrainCallsSnoc(s.log, n, ValueAt(s1, RecordOf(n)), s1.frames[1].passNo);
    assert OnlyPending(t, s.frames[1].invoked + {n}) by { StillOnly(s, s1, t, n); }
  }

  lemma OnePass(s: State, n: string)
    requires |s.frames| == 2 && s.frames[1].Drain? && Pending(s, n) && n !in s.frames[1].invoked
    requires OnlyPending(s, s.frames[1].invoked + {n})
    ensures IsPass(s, s.frames[1].invoked, [n])
  {
    hide RefAt;
  }

  lemma StillOnly(s: State, s1: State, t: State, n: string)
    requires |s.frames| == 2 && s.frames[1].Drain? && OnlyPending(s, s.frames[1].invoked + {n})
    requires s1.store == s.store && s1.refs == s.refs
    requires forall m :: Pending(t, m) ==> Pending(s1, m)
    ensures OnlyPending(t, s.frames[1].invoked + {n})
  {
    forall m | Pending(t, m) ensures Pending(s, m) {
      assert Pending(s1, m);
    }
  }

  // One more invocation; what is pending afterwards was pending before.
  lemma Drains(s: State, n: string)
    requires Inv(s) && |s.frames| == 2 && s.frames[0] == Main && s.frames[1].Drain? && s.frames[1].pass == [n]
    ensures var t := Step(s, DrainNext(PLAIN)); var v := ValueAt(s, RecordOf(n));
            t.frames == [Main, Drain(s.frames[1].invoked + {n}, [], Some(n), v, s.frames[1].passNo),
                         Implementation(n, v)] &&
            t.log == s.log + [DrainCalled(n, v, s.frames[1].passNo)] + [ImplCalled(n, v)] &&
            t.store.Keys == s.store.Keys && n in t.store && t.store[n].applied && t.boundaryDone == s.boundaryDone &&
            forall m :: Pending(t, m) ==> Pending(s, m)
  {
    hide Inv, Reaches, MintBuilt, Step, Ledger, ValueAt;
    DrainCalls1(s, PLAIN);
    InvNoHandle(s);
    assert Touch(Invoked(s), RefAt(Invoked(s), ImplOf(n))) == Invoked(s) by { TouchHeld(Invoked(s), ImplOf(n)); }
    assert Step(s, DrainNext(PLAIN)) == DoDrainNext(s, PLAIN) by { hide *; DrainNextStep(s); }
    InvokedPending(s, n, Implementation(n, ValueAt(s, RecordOf(n))));
    var t := Step(s, DrainNext(PLAIN));
    assert t == Push(Invoked(s), Implementation(n, ValueAt(s, RecordOf(n))));
    assert t.frames[1] == Drain(s.frames[1].invoked + {n}, [], Some(n), ValueAt(s, RecordOf(n)), s.frames[1].passNo);
    assert t.frames == [t.frames[0], t.frames[1], t.frames[2]];
  }

  lemma DrainNextStep(s: State)
    ensures Step(s, DrainNext(PLAIN)) == DoDrainNext(s, PLAIN)
  {
    hide DoDrainNext;
  }

  lemma InvokedPending(s: State, n: string, f: Frame)
    requires s.frames != [] && Top(s).Drain? && Top(s).pass == [n] && n in s.store
    ensures forall m :: Pending(Push(Invoked(s), f), m) ==> Pending(s, m)
  {}

  lemma DrainCallsSnoc(l: seq<Entry>, n: string, v: Value, pass: nat)
    ensures |DrainCalls(l + [DrainCalled(n, v, pass)] + [ImplCalled(n, v)])| == |DrainCalls(l)| + 1
  {
    var l1 := l + [DrainCalled(n, v, pass)];
    assert l1[..|l|] == l;
    assert (l1 + [ImplCalled(n, v)])[..|l1|] == l1;
  }

  // The drain's first invocation, on a behavior set before the boundary.
  lemma FirstInvocation(revert: bool) returns (t: State)
    ensures Reaches(Init(), t) && Running(t, 1)
    ensures var n := NameOf(0);
            t.frames[1].calling == Some(n) && n in t.store && t.store[n].applied &&
            (RefAt(t, RevertOf(n)) != NO_REF <==> revert) &&
            exists v, p :: t.log == [DrainCalled(n, v, p), ImplCalled(n, v)]
  {
    hide Inv, Reaches, Step, Pending;
    InitInv();
    ReachesRefl(Init());
    NothingPending();
    var s := DeclareAndSet(Init(), Init(), NameOf(0), revert, {});
    OneStep(Init(), s, StartBoundary);
    BoundaryStarts(s);
    var s1 := Step(s, StartBoundary);
    SamePending(s, s1);
    t := DrainOne(Init(), s1, NameOf(0), 0);
    SameReverts(s, s1);
    RevertStands(s1, t, NameOf(0));
    var v, p :| t.log == s1.log + [DrainCalled(NameOf(0), v, p)] + [ImplCalled(NameOf(0), v)];
    assert t.log == [DrainCalled(NameOf(0), v, p), ImplCalled(NameOf(0), v)];
  }

  lemma NothingPending()
    ensures OnlyPending(Init(), {})
  {}

  lemma SameReverts(s: State, t: State)
    requires t.refs == s.refs
    ensures forall n :: RefAt(t, RevertOf(n)) == RefAt(s, RevertOf(n))
  {}

  lemma SamePending(s: State, t: State)
    requires t.store == s.store && t.refs == s.refs
    ensures forall n :: Pending(t, n) <==> Pending(s, n)
  {}

  // One more: the running implementation declares and sets a behavior, and returns.
  lemma NextInvocation(s: State, k: nat) returns (t: State)
    requires Reaches(Init(), s) && Running(s, k)
    ensures Reaches(Init(), t) && Running(t, k + 1)
  {
    hide Inv, Reaches, Step, Pending, DrainCalls;
    var n, invoked := NameOf(k), s.frames[1].invoked;
    var s1 := DeclareAndSet(Init(), s, n, false, invoked);
    OneStep(Init(), s1, Return(false, PLAIN));
    var s2 := Step(s1, Return(false, PLAIN));
    ImplementationReturns(s1);
    SamePending(s1, s2);
    InvokedKnown(s);
    t := DrainOne(Init(), s2, n, k);
  }

  lemma InvokedKnown(s: State)
    requires Inv(s) && |s.frames| == 3 && s.frames[1].Drain?
    ensures s.frames[1].calling.Some? && s.frames[1].invoked <= s.store.Keys && s.frames[1].calling.value in s.store
  {
    hide Ledger, Placed, Truth, Fresh, History, Pending;
    assert FrameOk(s, 1);
  }

  lemma ImplementationReturns(s: State)
    requires Inv(s) && |s.frames| == 3 && s.frames[0] == Main && s.frames[1].Drain? &&
             s.frames[2].User? && s.frames[2].transient == None
    ensures var t := Step(s, Return(false, PLAIN));
            t.store == s.store && t.refs == s.refs && t.boundaryDone == s.boundaryDone &&
            t.frames == [Main, s.frames[1].(calling := None)] && |DrainCalls(t.log)| == |DrainCalls(s.log)|
  {
    hide Inv;
    InvokedKnown(s);
    var e := ImplReturned(s.frames[1].calling.value, s.frames[1].callingValue);
    assert (s.log + [e])[..|s.log|] == s.log;
  }

  // For every k some run of the boundary invokes k implementations.
  lemma {:induction false} InvokesManyTimes(k: nat) returns (t: State)
    ensures Reaches(Init(), t) && Running(t, k + 1)
    decreases k
  {
    hide Running, Reaches;
    if k == 0 {
      t := FirstInvocation(false);
    } else {
      var s := InvokesManyTimes(k - 1);
      t := NextInvocation(s, k);
    }
  }

  lemma DrainIsUnbounded(k: nat)
    ensures exists events :: |DrainCalls(Reached(events).log)| == k
  {
    hide Inv, Run, DrainCalls;
    if k == 0 {
      assert |DrainCalls(Reached([]).log)| == 0 by { NothingDrained(); }
    } else {
      var t := InvokesManyTimes(k - 1);
      var events :| Run(Init(), events) == t;
      assert Reached(events) == t;
    }
  }

  lemma NothingDrained()
    ensures |DrainCalls(Reached([]).log)| == 0
  {
    ReachedNothing();
  }
}
