/**
 Which sets leave a consumer-to-declarer edge.  A load-window set does, a queued set does when its
 toggle commits, and an inline toggle does not: over any run the edges are those of the first two, in
 the order in which they first came.
 */
module BehaviorEdges {
  import opened Options
  import opened RefLedger
  import opened BehaviorSteps
  import opened BehaviorEffects
  import opened BehaviorInvariant
  import opened BehaviorPreservation
  import opened BehaviorRuns
  import opened BehaviorTheorems
  import opened BehaviorScripts
  import opened BehaviorDispositions
  import opened BehaviorNil
  import opened BehaviorUnbounded

  // An accepted set inside the load window.
  predicate RecordsLoadSet(s: State, e: Event) {
    e.Set? && UserOnTop(s) && BuiltValue(s, e.h) && e.n in s.store &&
    !(s.store[e.n].tier.Plugin? && e.earlyStop) && !s.boundaryDone && !s.store[e.n].applied
  }

  // The callback of a toggle's implementation returns.
  predicate Commits(s: State, e: Event) {
    e.Return? && !e.raised && |s.frames| > 1 && Top(s).User? && s.frames[|s.frames| - 2].Toggle? &&
    s.frames[|s.frames| - 2].stage.Implementing?
  }

  // The edge an event is about, if it is about one.
  function EdgeOf(s: State, e: Event): Option<Edge> {
    if RecordsLoadSet(s, e) then Some(Edge(e.author, e.plugin, e.n))
    else if Commits(s, e) then s.frames[|s.frames| - 2].queuedBy
    else None
  }

  // The event leaves edge d; an anonymous setter has none.
  predicate LeavesEdge(s: State, e: Event, d: Edge) {
    d.consumerPlugin != "" && EdgeOf(s, e) == Some(d)
  }

  function EdgesAfter(edges: seq<Edge>, d: Option<Edge>): seq<Edge> {
    if d.None? || d.value.consumerPlugin == "" || d.value in edges then edges else edges + [d.value]
  }

  // ---- Toggles on the stack --------------------------------------------------

  predicate SameToggle(f: Frame, g: Frame)
    requires f.Toggle? && g.Toggle?
  {
    f.name == g.name && f.queuedBy == g.queuedBy && f.stage.value == g.stage.value
  }

  // A toggle stays what it is while it is on the stack; a new one is of `who` and carries `mark`.
  ghost predicate TogglesGo(s: State, t: State, mark: Option<Edge>, who: Option<string>) {
    (forall i :: 0 <= i < |t.frames| && t.frames[i].Toggle? ==>
       if i < |s.frames| then s.frames[i].Toggle? && SameToggle(s.frames[i], t.frames[i])
       else t.frames[i].queuedBy == mark && Some(t.frames[i].name) == who) &&
    (forall i :: 0 <= i < |s.frames| && i < |t.frames| && s.frames[i].Toggle? ==> t.frames[i].Toggle?)
  }

  // No toggle is begun or moved on.
  ghost predicate SameToggles(s: State, t: State) {
    (forall i :: 0 <= i < |t.frames| && t.frames[i].Toggle? ==> i < |s.frames| && s.frames[i] == t.frames[i]) &&
    (forall i :: 0 <= i < |s.frames| && i < |t.frames| && s.frames[i].Toggle? ==> t.frames[i] == s.frames[i])
  }

  // Neither edges nor toggles are touched.
  ghost predicate Bystander(s: State, t: State) {
    t.edges == s.edges && SameToggles(s, t)
  }

  // ---- The operations --------------------------------------------------------

  lemma VerbsStandBy(s: State, h: nat, n: string, hint: int, v: Value)
    ensures Bystander(s, MintBuilt(s, hint, v)) && Bystander(s, DoConsumeChild(s, h)) && Bystander(s, DoGet(s, n))
    ensures BuiltValue(s, h) ==> Pin(s, h, hint).edges == s.edges && Pin(s, h, hint).frames == s.frames
  {
    hide Ref, Unref, RefAt, ValueAt;
  }

  lemma EnterStandsBy(s: State, fn: Cell, args: seq<Value>, e: Entering)
    ensures Bystander(s, Enter(s, fn, args, e))
  {
    hide Ref;
  }

  lemma DeclareStandsBy(s: State, n: string, tier: Tier, h: nat, hasRevert: bool, d: int, i: int, r: int)
    ensures Bystander(s, DoDeclare(s, n, tier, h, hasRevert, d, i, r))
  {
    hide Ref, Unref, Move, Pin, RefAt, ValueAt, BuiltValue;
    if BuiltValue(s, h) { VerbsStandBy(s, h, n, d, Nil); }
  }

  lemma InvokeStandsBy(s: State, h: nat, args: seq<nat>, e: Entering)
    ensures Bystander(s, DoInvoke(s, h, args, e))
  {
    hide Enter, Callable, ReadCell, Arguments;
    EnterStandsBy(Push(s, Calling), ReadCell(s, h), Arguments(s, args), e);
  }

  lemma BoundaryStandsBy(s: State, e: Event)
    requires e.StartBoundary? || e.Snapshot? || e.SweepOne? || e.FinishBoundary? || e.Stage? || e.QueueSet?
    ensures Bystander(s, Step(s, e))
  {
    hide Bystander, IsPass, Drained, Pending, ClearRecord, DoStage, DoQueueSet;
    SelfBystander(s);
    if e.SweepOne? {
      PendingKnown(s, e.n);
      if e.n in s.store { ClearStandsBy(s, e.n); }
    } else if e.Stage? || e.QueueSet? {
      StagingStandsBy(s, e);
    } else {
      DrainFrameStandsBy(s, e);
    }
  }

  lemma ClearStandsBy(s: State, n: string)
    requires n in s.store
    ensures Bystander(s, ClearRecord(s, n))
  {
    hide Unref;
  }

  lemma StagingStandsBy(s: State, e: Event)
    requires e.Stage? || e.QueueSet?
    ensures Bystander(s, Step(s, e))
  {}

  lemma DrainFrameStandsBy(s: State, e: Event)
    requires e.StartBoundary? || e.Snapshot? || e.FinishBoundary?
    ensures Bystander(s, Step(s, e))
  {
    hide Bystander, DoStartBoundary, DoSnapshot, DoFinishBoundary;
    match e {
      case StartBoundary => StartStandsBy(s);
      case Snapshot(pass) => SnapshotStandsBy(s, pass);
      case FinishBoundary => FinishStandsBy(s);
    }
  }

  lemma StartStandsBy(s: State)
    ensures Bystander(s, DoStartBoundary(s))
  {}

  lemma SnapshotStandsBy(s: State, pass: seq<string>)
    ensures Bystander(s, DoSnapshot(s, pass))
  {
    hide IsPass;
  }

  lemma FinishStandsBy(s: State)
    ensures Bystander(s, DoFinishBoundary(s))
  {
    hide Pending;
  }

  lemma DrainStandsBy(s: State, e: Entering)
    ensures Bystander(s, DoDrainNext(s, e))
  {
    hide Enter, Pending, ValueAt, Bystander;
    SelfBystander(s);
    if s.frames != [] && Top(s).Drain? && Top(s).pass != [] {
      var d, n := Top(s), Top(s).pass[0];
      if Pending(s, n) {
        PendingKnown(s, n);
        var v := ValueAt(s, RecordOf(n));
        var s1 := Touch(WithBehavior(s, n, s.store[n].(applied := true)), RefAt(s, RecordOf(n)));
        var s2 := SetTop(s1, Drain(d.invoked + {n}, d.pass[1..], Some(n), v, d.passNo));
        var s3 := Log(Log(s2, DrainCalled(n, v, d.passNo)), ImplCalled(n, v));
        DrainFrameMoves(s, s3, s3.frames[|s.frames| - 1]);
        EnterStandsBy(s3, ImplOf(n), [v], e);
        BystanderTransitive(s, s3, Enter(s3, ImplOf(n), [v], e));
      } else {
        DrainFrameMoves(s, DoDrainNext(s, e), d.(pass := d.pass[1..]));
      }
    }
  }

  lemma DrainFrameMoves(s: State, t: State, d: Frame)
    requires s.frames != [] && Top(s).Drain? && d.Drain? && t.edges == s.edges &&
             t.frames == s.frames[|s.frames| - 1 := d]
    ensures Bystander(s, t)
  {}

  lemma BystanderTransitive(s: State, t: State, u: State)
    requires Bystander(s, t) && Bystander(t, u) && |t.frames| == |s.frames|
    ensures Bystander(s, u)
  {}

  lemma BystanderGoes(s: State, t: State, mark: Option<Edge>, who: Option<string>)
    requires Bystander(s, t)
    ensures TogglesGo(s, t, mark, who) && t.edges == s.edges
  {}

  lemma NewToggleGoes(s: State, t: State, mark: Option<Edge>, who: Option<string>)
    requires |t.frames| == |s.frames| + 2 && t.frames[..|s.frames|] == s.frames && Top(t).User?
    requires t.frames[|s.frames|].Toggle? && t.frames[|s.frames|].queuedBy == mark &&
             Some(t.frames[|s.frames|].name) == who
    ensures TogglesGo(s, t, mark, who)
  {
    forall i | 0 <= i < |s.frames| ensures t.frames[i] == s.frames[i] {
      assert t.frames[i] == t.frames[..|s.frames|][i];
    }
  }

  // A toggle is begun, or the new value is dropped because there is no revert.
  lemma BeginToggleGoes(s: State, n: string, queuedBy: Option<Edge>, e: Entering)
    requires Core(s) && UserOnTop(s) && |s.frames| % 2 == 1 && n in s.store
    requires RefAt(s, Local(0)) != NO_REF && (s.boundaryDone || s.store[n].applied)
    ensures var t := BeginToggle(s, n, queuedBy, e); TogglesGo(s, t, queuedBy, Some(n)) && t.edges == s.edges
  {
    hide Core, TogglesGo, Unref, BeginToggle, RefAt, ValueAt;
    if RefAt(s, RevertOf(n)) == NO_REF {
      NoRevertBegins(s, n, queuedBy, e);
      NoToggleGoes(s, Unref(s, Local(0)), queuedBy, Some(n));
    } else {
      ToggleBegins(s, n, queuedBy, e);
      NewToggleGoes(s, BeginToggle(s, n, queuedBy, e), queuedBy, Some(n));
    }
  }

  lemma NoToggleGoes(s: State, t: State, mark: Option<Edge>, who: Option<string>)
    requires t.frames == s.frames
    ensures TogglesGo(s, t, mark, who)
  {}

  lemma EdgeRecorded(s: State, e: Edge)
    ensures RecordEdge(s, e).edges == EdgesAfter(s.edges, Some(e)) && RecordEdge(s, e).frames == s.frames
  {}

  // ---- Set, RunQueued, Return ------------------------------------------------

  lemma SetGoes(s: State, e: Event)
    requires Inv(s) && e.Set? && UserOnTop(s)
    ensures var t := DoSet(s, e.n, e.h, e.author, e.plugin, e.earlyStop, e.hint, e.entering);
            TogglesGo(s, t, None, Some(e.n)) && t.edges == EdgesAfter(s.edges, EdgeOf(s, e))
  {
    hide Inv, Core, Ledger, TogglesGo, Pin, BeginToggle, RecordLoadSet, RecordEdge, BuiltValue, RefAt, ValueAt;
    NoToggleGoes(s, s, None, Some(e.n));
    if BuiltValue(s, e.h) && e.n in s.store && !(s.store[e.n].tier.Plugin? && e.earlyStop) {
      PinnedToggle(s, e.h, e.hint);
      VerbsStandBy(s, e.h, e.n, e.hint, Nil);
      var s1 := Pin(s, e.h, e.hint);
      if s.boundaryDone || s.store[e.n].applied {
        BeginToggleGoes(s1, e.n, None, e.entering);
        FirstSame(s, s1, BeginToggle(s1, e.n, None, e.entering), None, Some(e.n));
      } else {
        LoadSetEdges(s1, e.n, e.author, e.plugin);
        EdgeRecorded(RecordLoadSet(s1, e.n, e.author, e.plugin), Edge(e.author, e.plugin, e.n));
        NoToggleGoes(s, RecordEdge(RecordLoadSet(s1, e.n, e.author, e.plugin), Edge(e.author, e.plugin, e.n)), None,
                     Some(e.n));
      }
    }
  }

  lemma FirstSame(s: State, s1: State, t: State, mark: Option<Edge>, who: Option<string>)
    requires s1.frames == s.frames && TogglesGo(s1, t, mark, who)
    ensures TogglesGo(s, t, mark, who)
  {}

  lemma LoadSetEdges(s: State, n: string, author: string, plugin: string)
    requires n in s.store
    ensures var t := RecordLoadSet(s, n, author, plugin); t.edges == s.edges && t.frames == s.frames
  {
    hide Unref, Move, ReleaseRecord;
  }

  // The queued set at the head begins a toggle.
  predicate StartsQueued(s: State, e: Event) {
    e.RunQueued? && e.built && s.queue != [] && s.frames == [Main] && s.queue[0].name in s.store
  }

  function MarkOf(s: State, e: Event): Option<Edge> {
    if StartsQueued(s, e) then Some(Edge(s.queue[0].author, s.queue[0].plugin, s.queue[0].name)) else None
  }

  // The behavior whose toggle an event may begin.
  function WhoOf(s: State, e: Event): Option<string> {
    if e.Set? then Some(e.n) else if StartsQueued(s, e) then Some(s.queue[0].name) else None
  }

  lemma RunQueuedGoes(s: State, e: Event)
    requires Inv(s) && e.RunQueued?
    ensures var t := DoRunQueued(s, e.built, e.hint, e.entering);
            TogglesGo(s, t, MarkOf(s, e), WhoOf(s, e)) && t.edges == s.edges
  {
    hide Inv, Core, TogglesGo, Ref, BeginToggle, RefAt, ValueAt;
    NoToggleGoes(s, DoRunQueued(s, e.built, e.hint, e.entering).(frames := s.frames), MarkOf(s, e), WhoOf(s, e));
    if s.queue != [] && s.frames == [Main] {
      var q, s1 := s.queue[0], s.(queue := s.queue[1..]);
      NoToggleGoes(s, s1, MarkOf(s, e), WhoOf(s, e));
      if q.name in s.store && e.built {
        DequeueKeeps(s, s1);
        QueuedToggle(s1, e.hint, q.payload);
        var s2 := Ref(s1, e.hint, q.payload, Local(0));
        BeginToggleGoes(s2, q.name, Some(Edge(q.author, q.plugin, q.name)), e.entering);
        FirstSame(s, s2, BeginToggle(s2, q.name, Some(Edge(q.author, q.plugin, q.name)), e.entering), MarkOf(s, e),
                  WhoOf(s, e));
      }
    } else {
      NoToggleGoes(s, s, MarkOf(s, e), WhoOf(s, e));
    }
  }

  lemma LeaveGoes(s: State, raised: bool)
    requires s.frames != [] && Top(s).User?
    ensures var t := Leave(s, raised); t.edges == s.edges && t.frames == s.frames[..|s.frames| - 1]
  {
    hide Unref;
  }

  lemma ReturnGoes(s: State, raised: bool, entering: Entering)
    requires Inv(s)
    ensures var t := DoReturn(s, raised, entering);
            TogglesGo(s, t, None, None) && t.edges == EdgesAfter(s.edges, EdgeOf(s, Return(raised, entering)))
  {
    hide Inv, TogglesGo, Leave, ResumeToggle, ResumeDrain, RefAt, ValueAt;
    NoToggleGoes(s, s, None, None);
    if s.frames != [] && Top(s).User? {
      LeaveGoes(s, raised);
      var t := Leave(s, raised);
      PopGoes(s, t);
      if |s.frames| > 1 && Top(t).Toggle? {
        Resumed(s, raised, entering);
        ResumeToggleGoes(s, t, raised, entering);
      } else if |s.frames| > 1 && Top(t).Drain? {
        ResumeDrainGoes(s, t, raised);
      } else if |s.frames| > 1 && Top(t).Calling? {
        PopGoes(s, Pop(t));
      }
    }
  }

  lemma PopGoes(s: State, t: State)
    requires |t.frames| <= |s.frames| && t.frames == s.frames[..|t.frames|]
    ensures TogglesGo(s, t, None, None)
  {}

  lemma ResumeDrainGoes(s: State, t: State, raised: bool)
    requires |s.frames| > 1 && t.frames == s.frames[..|s.frames| - 1] && Top(t).Drain? && t.edges == s.edges
    ensures var u := ResumeDrain(t, raised); TogglesGo(s, u, None, None) && u.edges == s.edges
  {
    hide Unref, RefAt;
  }

  // s is the state before the callback ended, t the one in which the toggle resumes.
  lemma ResumeToggleGoes(s: State, t: State, raised: bool, entering: Entering)
    requires |s.frames| > 1 && t.frames == s.frames[..|s.frames| - 1] && t.edges == s.edges && Top(s).User?
    requires Top(t).Toggle? && Top(t).name in t.store && ValueAt(t, FrameOf(|t.frames| - 1)) == Top(t).stage.value
    ensures var u := ResumeToggle(t, raised, entering);
            TogglesGo(s, u, None, None) && u.edges == EdgesAfter(s.edges, EdgeOf(s, Return(raised, entering)))
  {
    hide TogglesGo, DropToggle, ClearRecord, CommitToggle, CallImplementation, RefAt, ValueAt;
    var u := ResumeToggle(t, raised, entering);
    match Top(t).stage {
      case Reverting(_) =>
        if raised {
          DropGoes(t);
          PopGoes(s, u);
        } else {
          CallImplementationFrames(t, entering);
          CallImplementationEdges(t, entering);
          ImplementingGoes(s, t, u);
        }
      case Implementing(v) =>
        if raised {
          DropGoes(t);
          ClearGoes(DropToggle(t), Top(t).name);
        } else {
          CommitGoes(Log(t, ImplReturned(Top(t).name, v)));
        }
        PopGoes(s, u);
    }
  }

  lemma DropGoes(t: State)
    requires t.frames != [] && Top(t).Toggle?
    ensures var u := DropToggle(t); u.edges == t.edges && u.store == t.store && u.frames == t.frames[..|t.frames| - 1]
  {
    hide Unref;
  }

  lemma ClearGoes(t: State, n: string)
    requires n in t.store
    ensures ClearRecord(t, n).edges == t.edges && ClearRecord(t, n).frames == t.frames
  {
    hide Unref;
  }

  lemma CommitGoes(t: State)
    requires t.frames != [] && Top(t).Toggle? && Top(t).name in t.store
    ensures var u := CommitToggle(t);
            u.edges == EdgesAfter(t.edges, Top(t).queuedBy) && u.frames == t.frames[..|t.frames| - 1]
  {
    hide Unref, Move, ReleaseRecord;
  }

  lemma ImplementingGoes(s: State, t: State, u: State)
    requires |s.frames| > 1 && t.frames == s.frames[..|s.frames| - 1] && Top(t).Toggle? && Top(s).User?
    requires |u.frames| == |s.frames| && Top(u).User? && u.frames[..|t.frames| - 1] == t.frames[..|t.frames| - 1]
    requires u.frames[|t.frames| - 1] == Toggle(Top(t).name, Implementing(Top(t).stage.value), Top(t).queuedBy)
    ensures TogglesGo(s, u, None, None)
  {
    var k := |t.frames| - 1;
    forall i | 0 <= i < k ensures u.frames[i] == s.frames[i] {
      assert u.frames[i] == u.frames[..k][i] && t.frames[i] == t.frames[..k][i];
    }
  }

  // ---- One step --------------------------------------------------------------

  // What an event does to the edges and to the toggles on the stack.
  lemma StepGoes(s: State, e: Event)
    requires Inv(s)
    ensures Step(s, e).edges == EdgesAfter(s.edges, EdgeOf(s, e)) && TogglesGo(s, Step(s, e), MarkOf(s, e), WhoOf(s, e))
  {
    hide Inv, TogglesGo, Bystander, MintBuilt, DoConsumeChild, DoGet, DoDeclare, DoSet, DoInvoke, DoReturn, DoRunQueued,
      DoDrainNext, BuiltValue;
    NoToggleGoes(s, s, None, WhoOf(s, e));
    if e.Set? {
      if UserOnTop(s) { SetGoes(s, e); }
    } else if e.Return? {
      ReturnGoes(s, e.raised, e.entering);
    } else if e.RunQueued? {
      RunQueuedGoes(s, e);
    } else {
      OtherStandsBy(s, e);
      BystanderGoes(s, Step(s, e), None, None);
    }
  }

  lemma OtherStandsBy(s: State, e: Event)
    requires !e.Set? && !e.Return? && !e.RunQueued?
    ensures Bystander(s, Step(s, e))
  {
    hide Bystander, MintBuilt, DoConsumeChild, DoGet, DoDeclare, DoInvoke, DoDrainNext;
    SelfBystander(s);
    match e {
      case Build(v, hint) => VerbsStandBy(s, 0, "", hint, v);
      case ConsumeChild(h) => VerbsStandBy(s, h, "", 0, Nil);
      case Get(n) => VerbsStandBy(s, 0, n, 0, Nil);
      case Declare(n, tier, h, hasRevert, d, i, r) => DeclareStandsBy(s, n, tier, h, hasRevert, d, i, r);
      case Invoke(h, args, entering) => InvokeStandsBy(s, h, args, entering);
      case DrainNext(entering) => DrainStandsBy(s, entering);
      case _ => BoundaryStandsBy(s, e);
    }
  }

  lemma SelfBystander(s: State)
    ensures Bystander(s, s)
  {}

  // ---- Every run -------------------------------------------------------------

  // Over any run there is an edge for d if and only if some event left it: an accepted load-window set
  // by the named plugin, or the commit of a toggle that a queued set of that plugin had begun.
  lemma {:induction false} EdgesOfPrefix(events: seq<Event>, n: nat, d: Edge)
    requires n <= |events|
    ensures d in Reached(events[..n]).edges <==>
              exists k :: 0 <= k < n && LeavesEdge(Reached(events[..k]), events[k], d)
    decreases n
  {
    hide Reached, LeavesEdge, Step, Inv;
    if n == 0 {
      NoEdgesYet(events);
    } else {
      EdgesOfPrefix(events, n - 1, d);
      var s, e := Reached(events[..n - 1]), events[n - 1];
      ReachedInv(events[..n - 1]);
      ReachedNext(events, n - 1);
      StepLeaves(s, e, d);
    }
  }

  lemma NoEdgesYet(events: seq<Event>)
    ensures Reached(events[..0]).edges == []
  {
    assert events[..0] == [];
    ReachedNothing();
  }

  lemma StepLeaves(s: State, e: Event, d: Edge)
    requires Inv(s)
    ensures d in Step(s, e).edges <==> d in s.edges || LeavesEdge(s, e, d)
  {
    hide Inv, Step, EdgeOf, TogglesGo;
    StepGoes(s, e);
  }

  lemma EdgesOfRun(events: seq<Event>, d: Edge)
    ensures d in Reached(events).edges <==>
              exists k :: 0 <= k < |events| && LeavesEdge(Reached(events[..k]), events[k], d)
  {
    hide Reached, LeavesEdge;
    EdgesOfPrefix(events, |events|, d);
    assert events[..|events|] == events;
  }

  // ---- A toggle from its begin to its end ------------------------------------

  // Frame i does not leave the stack.
  ghost predicate StaysOn(s: State, events: seq<Event>, i: nat) {
    forall p :: 0 <= p <= |events| ==> i < |Run(s, events[..p]).frames|
  }

  lemma {:induction false} ToggleStays(s: State, events: seq<Event>, i: nat)
    requires Inv(s) && StaysOn(s, events, i) && i < |s.frames| && s.frames[i].Toggle?
    ensures var t := Run(s, events);
            Inv(t) && i < |t.frames| && t.frames[i].Toggle? && SameToggle(s.frames[i], t.frames[i])
    decreases |events|
  {
    hide Inv, Step, TogglesGo, StaysOn;
    if events != [] {
      StepKeeps(s, events[0]);
      StepGoes(s, events[0]);
      StillOn(s, events, i);
      ToggleStep(s, Step(s, events[0]), i, MarkOf(s, events[0]), WhoOf(s, events[0]));
      ToggleStays(Step(s, events[0]), events[1..], i);
    }
  }

  lemma ToggleStep(s: State, t: State, i: nat, mark: Option<Edge>, who: Option<string>)
    requires TogglesGo(s, t, mark, who) && i < |s.frames| && s.frames[i].Toggle? && i < |t.frames|
    ensures t.frames[i].Toggle? && SameToggle(s.frames[i], t.frames[i])
  {}

  lemma StillOn(s: State, events: seq<Event>, i: nat)
    requires StaysOn(s, events, i) && events != []
    ensures StaysOn(Step(s, events[0]), events[1..], i) && i < |Step(s, events[0]).frames|
  {
    hide Step, Run;
    forall p | 0 <= p < |events| ensures i < |Run(Step(s, events[0]), events[1..][..p]).frames| {
      assert events[..p + 1][0] == events[0] && events[..p + 1][1..] == events[1..][..p];
      RunUnfolds(s, events[..p + 1]);
      assert i < |Run(s, events[..p + 1]).frames|;
    }
    assert events[1..][..0] == [];
    RunNothing(Step(s, events[0]));
    assert i < |Run(Step(s, events[0]), events[1..][..0]).frames|;
  }

  lemma RunUnfolds(s: State, events: seq<Event>)
    requires events != []
    ensures Run(s, events) == Run(Step(s, events[0]), events[1..])
  {
    hide Step;
  }

  lemma RunNothing(s: State)
    ensures Run(s, []) == s
  {
    hide Step;
  }

  // A set that is accepted and toggles at once.
  predicate TogglesInline(s: State, e: Event) {
    e.Set? && UserOnTop(s) && BuiltValue(s, e.h) && e.n in s.store && !(s.store[e.n].tier.Plugin? && e.earlyStop) &&
    (s.boundaryDone || s.store[e.n].applied) && RefAt(s, RevertOf(e.n)) != NO_REF
  }

  // An inline toggle leaves no edge, neither where it is begun nor where it ends, whatever runs in
  // between; when it commits, get() answers exactly what the set's handle read.
  lemma InlineToggleLeavesNone(before: seq<Event>, e: Event, after: seq<Event>, raised: bool, entering: Entering)
    requires TogglesInline(Reached(before), e)
    requires var s := Reached(before); StaysOn(Step(s, e), after, |s.frames|)
    requires var s := Reached(before); var t := Run(Step(s, e), after); |t.frames| == |s.frames| + 2 && Top(t).User?
    ensures var s := Reached(before); var t := Run(Step(s, e), after); var u := Step(t, Return(raised, entering));
            Step(s, e).edges == s.edges && u.edges == t.edges && t.frames[|s.frames|].Toggle? && Read(s, e.h).Ok? &&
            (t.frames[|s.frames|].stage.Implementing? && !raised ==>
               e.n in u.store && u.store[e.n].applied && CurrentValue(u, e.n) == Read(s, e.h).value)
  {
    hide Inv, Reached, Run, Step, StaysOn, TogglesGo, RefAt, BuiltValue, Read;
    var s := Reached(before);
    var s1, i := Step(s, e), |s.frames|;
    ReachedInv(before);
    StepKeeps(s, e);
    StepGoes(s, e);
    ToggleGetsTheValue(before, e.n, e.h, e.author, e.plugin, e.earlyStop, e.hint, e.entering);
    InlineMark(s, e);
    ToggleStays(s1, after, i);
    var t := Run(s1, after);
    StepGoes(t, Return(raised, entering));
    if t.frames[i].stage.Implementing? && !raised {
      Dispositions(t, entering);
    }
  }

  // The toggle a set begins is not marked as queued.
  lemma InlineMark(s: State, e: Event)
    requires Inv(s) && TogglesInline(s, e)
    ensures var t := Step(s, e);
            |t.frames| > |s.frames| && t.frames[|s.frames|].Toggle? && t.frames[|s.frames|].queuedBy == None
    ensures Step(s, e).edges == s.edges
  {
    hide Inv, Core, Ledger, Pin, BeginToggle, RefAt, ValueAt, BuiltValue;
    PinnedToggle(s, e.h, e.hint);
    VerbsStandBy(s, e.h, e.n, e.hint, Nil);
    ToggleBegins(Pin(s, e.h, e.hint), e.n, None, e.entering);
  }

  lemma Dispositions(t: State, entering: Entering)
    requires Inv(t) && Commits(t, Return(false, entering))
    ensures var u := Step(t, Return(false, entering)); var toggle := t.frames[|t.frames| - 2];
            toggle.name in u.store && u.store[toggle.name].applied && CurrentValue(u, toggle.name) == toggle.stage.value
  {
    hide Inv, DoReturn;
    DisposedByReturn(t, false, entering);
  }

  // A queued set leaves its edge when its toggle commits, and none when it does not.
  lemma QueuedToggleLeavesIts(before: seq<Event>, e: Event, after: seq<Event>, raised: bool, entering: Entering)
    requires StartsQueued(Reached(before), e) &&
             RefAt(Reached(before), RevertOf(Reached(before).queue[0].name)) != NO_REF
    requires StaysOn(Step(Reached(before), e), after, 1)
    requires var t := Run(Step(Reached(before), e), after); |t.frames| == 3 && Top(t).User?
    ensures var s := Reached(before); var q := s.queue[0]; var t := Run(Step(s, e), after);
            var u := Step(t, Return(raised, entering));
            Step(s, e).edges == s.edges && t.frames[1].Toggle? &&
            if !raised && t.frames[1].stage.Implementing? then
              u.edges == EdgesAfter(t.edges, Some(Edge(q.author, q.plugin, q.name))) &&
              q.name in u.store && u.store[q.name].applied && CurrentValue(u, q.name) == q.payload
            else u.edges == t.edges
  {
    hide Inv, Reached, Run, Step, StaysOn, TogglesGo, RefAt;
    var s := Reached(before);
    ReachedInv(before);
    StepKeeps(s, e);
    StepGoes(s, e);
    QueuedMark(s, e);
    ToggleStays(Step(s, e), after, 1);
    var t := Run(Step(s, e), after);
    StepGoes(t, Return(raised, entering));
    if t.frames[1].stage.Implementing? && !raised {
      Dispositions(t, entering);
    }
  }

  lemma QueuedMark(s: State, e: Event)
    requires Inv(s) && StartsQueued(s, e) && RefAt(s, RevertOf(s.queue[0].name)) != NO_REF
    ensures var q := s.queue[0]; var t := Step(s, e);
            |t.frames| == 3 && t.frames[1].Toggle? && t.frames[1].name == q.name &&
            t.frames[1].stage.value == q.payload &&
            t.frames[1].queuedBy == Some(Edge(q.author, q.plugin, q.name))
  {
    hide Inv, Core, Ref, BeginToggle, RefAt, ValueAt;
    var q, s1 := s.queue[0], s.(queue := s.queue[1..]);
    DequeueKeeps(s, s1);
    QueuedToggle(s1, e.hint, q.payload);
    ToggleBegins(Ref(s1, e.hint, q.payload, Local(0)), q.name, Some(Edge(q.author, q.plugin, q.name)), e.entering);
  }

  // ---- Where the edges come from ---------------------------------------------

  // An off-thread set that is queued.
  predicate Queues(s: State, e: Event) {
    e.QueueSet? && s.boundaryDone && e.h in s.handles && s.handles[e.h].StagedHandle? && !s.handles[e.h].consumed
  }

  // An event of the run was a load-window set or a queued set of that consumer on that behavior.
  ghost predicate Asked(events: seq<Event>, d: Edge) {
    exists k :: 0 <= k < |events| && Asks(Reached(events[..k]), events[k], d)
  }

  predicate Asks(s: State, e: Event, d: Edge) {
    (RecordsLoadSet(s, e) || Queues(s, e)) && d == Edge(e.author, e.plugin, e.n)
  }

  // Every edge, every mark on a toggle and every queued command goes back to such an event.
  ghost predicate AllAsked(s: State, events: seq<Event>) {
    (forall d :: d in s.edges ==> Asked(events, d)) &&
    (forall i :: 0 <= i < |s.queue| ==> Asked(events, Edge(s.queue[i].author, s.queue[i].plugin, s.queue[i].name))) &&
    (forall i :: 0 <= i < |s.frames| && s.frames[i].Toggle? && s.frames[i].queuedBy.Some? ==>
       Asked(events, s.frames[i].queuedBy.value))
  }

  // What a step does to the queue.
  ghost predicate QueueGoes(s: State, e: Event, t: State) {
    if Queues(s, e) then t.queue == s.queue + [QueuedSet(e.n, e.author, e.plugin, s.handles[e.h].payload)]
    else if e.RunQueued? && s.queue != [] && s.frames == [Main] then t.queue == s.queue[1..]
    else t.queue == s.queue
  }

  lemma StepQueueGoes(s: State, e: Event)
    ensures QueueGoes(s, e, Step(s, e))
  {
    hide SameQueue, MintBuilt, DoConsumeChild, DoGet, DoDeclare, DoSet, DoInvoke, DoReturn, DoDrainNext, BeginToggle,
      Ref,
      IsPass, Pending, ClearRecord;
    if e.RunQueued? {
      RunQueuedQueueGoes(s, e);
    } else if !e.Stage? && !e.QueueSet? {
      StepSameQueue(s, e);
    }
  }

  lemma StepSameQueue(s: State, e: Event)
    requires !e.Stage? && !e.QueueSet? && !e.RunQueued?
    ensures Step(s, e).queue == s.queue
  {
    hide SameQueue, Step;
    StepSameQueueAll(s, e);
    QueueOf(s, Step(s, e));
  }

  lemma StepSameQueueAll(s: State, e: Event)
    requires !e.Stage? && !e.QueueSet? && !e.RunQueued?
    ensures SameQueue(s, Step(s, e))
  {
    hide SameQueue, MintBuilt, DoConsumeChild, DoGet, DoDeclare, DoSet, DoInvoke, DoReturn;
    match e {
      case Build(v, hint) => MintBuiltQueue(s, hint, v);
      case ConsumeChild(h) => VerbsQueue(s, h, "", 0);
      case Get(n) => VerbsQueue(s, 0, n, 0);
      case Declare(n, tier, h, hasRevert, d, i, r) => DeclareQueue(s, n, tier, h, hasRevert, d, i, r);
      case Set(n, h, author, plugin, earlyStop, hint, entering) =>
        SetQueue(s, n, h, author, plugin, earlyStop, hint, entering);
      case Invoke(h, args, entering) => InvokeQueue(s, h, args, entering);
      case Return(raised, entering) => ReturnQueue(s, raised, entering);
      case _ => DrainQueue(s, e);
    }
    SameQueueRefl(s);
  }

  lemma QueueOf(s: State, t: State)
    requires SameQueue(s, t)
    ensures t.queue == s.queue
  {}

  lemma RunQueuedQueueGoes(s: State, e: Event)
    requires e.RunQueued?
    ensures QueueGoes(s, e, DoRunQueued(s, e.built, e.hint, e.entering))
  {
    hide Ref, BeginToggle, SameQueue;
    if s.queue != [] && s.frames == [Main] && s.queue[0].name in s.store {
      var q, s1 := s.queue[0], s.(queue := s.queue[1..]);
      var s2 := Ref(s1, e.hint, q.payload, Local(0));
      BeginToggleQueue(s2, q.name, Some(Edge(q.author, q.plugin, q.name)), e.entering);
      QueueOf(s2, BeginToggle(s2, q.name, Some(Edge(q.author, q.plugin, q.name)), e.entering));
    }
  }

  lemma {:induction false} AskedByThen(events: seq<Event>, n: nat)
    requires n <= |events|
    ensures AllAsked(Reached(events[..n]), events[..n])
    decreases n
  {
    hide Reached, Step, Inv, AllAsked;
    if n == 0 {
      NobodyAsked(events);
    } else {
      AskedByThen(events, n - 1);
      var s, e := Reached(events[..n - 1]), events[n - 1];
      ReachedInv(events[..n - 1]);
      ReachedNext(events, n - 1);
      StepGoes(s, e);
      StepQueueGoes(s, e);
      assert events[..n] == events[..n - 1] + [e];
      StepAsked(s, e, Step(s, e), events[..n - 1]);
    }
  }

  lemma NobodyAsked(events: seq<Event>)
    ensures AllAsked(Reached(events[..0]), events[..0])
  {
    assert events[..0] == [];
    ReachedNothing();
  }

  lemma StepAsked(s: State, e: Event, t: State, events: seq<Event>)
    requires s == Reached(events) && AllAsked(s, events)
    requires t.edges == EdgesAfter(s.edges, EdgeOf(s, e)) && TogglesGo(s, t, MarkOf(s, e), WhoOf(s, e)) &&
             QueueGoes(s, e, t)
    ensures AllAsked(t, events + [e])
  {
    hide Reached, Asked, RecordsLoadSet, Queues, TogglesGo, Commits;
    AskedNow(events, e);
    forall d | d in t.edges ensures Asked(events + [e], d) {
      if d in s.edges { AskedLater(events, e, d); } else { EdgeAsked(s, e, d, events); }
    }
    forall i | 0 <= i < |t.queue|
      ensures Asked(events + [e], Edge(t.queue[i].author, t.queue[i].plugin, t.queue[i].name))
    {
      QueueAsked(s, e, t, events, i);
    }
    forall i | 0 <= i < |t.frames| && t.frames[i].Toggle? && t.frames[i].queuedBy.Some?
      ensures Asked(events + [e], t.frames[i].queuedBy.value)
    {
      ToggleAsked(s, e, t, events, i);
    }
  }

  lemma AskedLater(events: seq<Event>, e: Event, d: Edge)
    requires Asked(events, d)
    ensures Asked(events + [e], d)
  {
    hide Reached, Asks;
    var k :| 0 <= k < |events| && Asks(Reached(events[..k]), events[k], d);
    assert (events + [e])[..k] == events[..k] && (events + [e])[k] == events[k];
  }

  lemma AskedNow(events: seq<Event>, e: Event)
    ensures forall d :: Asks(Reached(events), e, d) ==> Asked(events + [e], d)
  {
    hide Reached, Asks;
    assert (events + [e])[..|events|] == events && (events + [e])[|events|] == e;
  }

  lemma EdgeAsked(s: State, e: Event, d: Edge, events: seq<Event>)
    requires s == Reached(events) && AllAsked(s, events) && EdgeOf(s, e) == Some(d)
    ensures Asked(events + [e], d)
  {
    hide Reached, Asked, RecordsLoadSet;
    AskedNow(events, e);
    if RecordsLoadSet(s, e) {
      assert Asks(s, e, d);
    } else {
      AskedLater(events, e, d);
    }
  }

  lemma QueueAsked(s: State, e: Event, t: State, events: seq<Event>, i: nat)
    requires s == Reached(events) && AllAsked(s, events) && QueueGoes(s, e, t) && i < |t.queue|
    ensures Asked(events + [e], Edge(t.queue[i].author, t.queue[i].plugin, t.queue[i].name))
  {
    hide Reached, Asked;
    AskedNow(events, e);
    var d := Edge(t.queue[i].author, t.queue[i].plugin, t.queue[i].name);
    if Queues(s, e) && i == |s.queue| {
      assert Asks(s, e, d);
    } else {
      assert Asked(events, d);
      AskedLater(events, e, d);
    }
  }

  lemma ToggleAsked(s: State, e: Event, t: State, events: seq<Event>, i: nat)
    requires s == Reached(events) && AllAsked(s, events) && TogglesGo(s, t, MarkOf(s, e), WhoOf(s, e)) && i < |t.frames|
    requires t.frames[i].Toggle? && t.frames[i].queuedBy.Some?
    ensures Asked(events + [e], t.frames[i].queuedBy.value)
  {
    hide Reached, Asked;
    assert Asked(events, t.frames[i].queuedBy.value);
    AskedLater(events, e, t.frames[i].queuedBy.value);
  }

  // So an edge means a load-window set or a queued set: inline toggles alone leave none.
  lemma EdgesAreAskedFor(events: seq<Event>, d: Edge)
    requires d in Reached(events).edges
    ensures exists k :: 0 <= k < |events| &&
              (RecordsLoadSet(Reached(events[..k]), events[k]) || Queues(Reached(events[..k]), events[k])) &&
              d == Edge(events[k].author, events[k].plugin, events[k].n)
  {
    hide Reached, RecordsLoadSet, Queues;
    assert events[..|events|] == events;
    AskedByThen(events, |events|);
    var k :| 0 <= k < |events| && Asks(Reached(events[..k]), events[k], d);
    assert RecordsLoadSet(Reached(events[..k]), events[k]) || Queues(Reached(events[..k]), events[k]);
  }

  // ---- An inline toggle without an edge --------------------------------------

  // The boundary passes with one behavior declared and none set.
  function Opened(): seq<Event> {
    [Build(Obj(1), 0), Declare("b", Plugin, 1, true, 0, 0, 0), StartBoundary, FinishBoundary]
  }

  // Plugin "p" builds v and sets the behavior to it; its callbacks return.
  ghost function SetInline(p: seq<Event>, v: Value): seq<Event> {
    p + [Build(v, 0), Set("b", Reached(p).nextHandle, "a", "p", false, 0, PLAIN)] +
    (if "b" in Reached(p).store && Reached(p).store["b"].applied then [Return(false, PLAIN)] else []) +
    [Return(false, PLAIN)]
  }

  // Between two sets: the boundary is over, and nothing runs.
  ghost predicate Quiescent(s: State) {
    s.frames == [Main] && s.boundaryDone && "b" in s.store && RefAt(s, RevertOf("b")) != NO_REF && s.edges == []
  }

  // A behavior that is applied is set by a named plugin, the toggle commits, and there is no edge.
  lemma InlineSetWithoutEdge()
    ensures var before := SetInline(Opened(), Obj(2)); var after := SetInline(before, Obj(3));
            var s, t := Reached(before), Reached(after);
            "b" in s.store && s.store["b"].applied && "b" in t.store && t.store["b"].applied &&
            CurrentValue(s, "b") == Obj(2) && CurrentValue(t, "b") == Obj(3) && t.edges == []
  {
    hide Reached, CurrentValue, SetInline, RefAt;
    OpenedIsQuiescent();
    SetsInline(Opened(), Obj(2));
    SetsInline(SetInline(Opened(), Obj(2)), Obj(3));
  }

  lemma OpenedIsQuiescent()
    ensures Quiescent(Reached(Opened()))
  {
    hide Step, Inv, Reached, RefAt, Deref, BuiltValue;
    var es := Opened();
    assert es[..1] == [] + [es[0]] && es[..2] == es[..1] + [es[1]] && es[..3] == es[..2] + [es[2]] &&
           es == es[..3] + [es[3]];
    ReachedStep([], es[0]);
    ReachedStep(es[..1], es[1]);
    ReachedStep(es[..2], es[2]);
    ReachedStep(es[..3], es[3]);
    InitInv();
    ReachedNothing();
    NilRunBuilt(Init());
    var s1, s2, s3 := Reached(es[..1]), Reached(es[..2]), Reached(es[..3]);
    ReachedInv(es[..1]);
    ReachedInv(es[..2]);
    ReachedInv(es[..3]);
    DeclaredOnce(s1);
    StepKeeps(s2, StartBoundary);
    StepKeeps(s3, FinishBoundary);
    StepGoes(Init(), es[0]);
    StepGoes(s1, es[1]);
    StepGoes(s2, StartBoundary);
    StepGoes(s3, FinishBoundary);
    BoundaryStarts(s2);
    NothingToDrain(s2, s3);
    BoundaryFinishes(s3);
    RevertStands(s2, s3, "b");
    RevertStands(s3, Reached(es), "b");
  }

  lemma DeclaredOnce(s: State)
    requires Inv(s) && s.frames == [Main] && s.store == map[] && !s.boundaryDone && BuiltValue(s, 1)
    ensures var t := Step(s, Declare("b", Plugin, 1, true, 0, 0, 0));
            t.frames == [Main] && !t.boundaryDone && "b" in t.store && RefAt(t, RevertOf("b")) != NO_REF &&
            forall n :: !Pending(t, n)
  {
    hide Ledger, Placed, Stack, Truth, Fresh, History, Pin, Trampolines, Adopt, BuiltValue, RefAt, ValueAt;
    PinCells(s, 1, 0);
    var s1 := Pin(s, 1, 0);
    TrampolinesCells(s1, true, 0, 0);
    var s2 := Trampolines(s1, true, 0, 0);
    NoCells(s, "b");
    AdoptCells(s2, "b", Plugin);
    var t := Adopt(s2, "b", Plugin);
    assert RefAt(t, RecordOf("b")) == RefAt(s, RecordOf("b"));
  }

  lemma NothingToDrain(s: State, t: State)
    requires s.frames == [Main] && t == s.(frames := [Main, Drain({}, [], None, Nil, 0)]) && forall n :: !Pending(s, n)
    ensures Drained(t) && forall n :: !Pending(t, n)
  {
    forall n ensures !Pending(t, n) { assert !Pending(s, n); }
  }

  lemma SetsInline(p: seq<Event>, v: Value)
    requires Quiescent(Reached(p)) && v.Obj?
    ensures var t := Reached(SetInline(p, v));
            Quiescent(t) && t.store["b"].applied && CurrentValue(t, "b") == v
  {
    hide Step, Inv, Reached, Run, RefAt, Deref, BuiltValue, StaysOn, TogglesInline, CurrentValue, TogglesGo, Read;
    var s, h := Reached(p), Reached(p).nextHandle;
    var built, e := p + [Build(v, 0)], Set("b", h, "a", "p", false, 0, PLAIN);
    ReachedInv(p);
    ReachedStep(p, Build(v, 0));
    StepKeeps(s, Build(v, 0));
    StepGoes(s, Build(v, 0));
    BuiltInline(s, v);
    RevertStands(s, Reached(built), "b");
    var s1 := Reached(built);
    ReachedInv(built);
    ReadyToToggle(s1, e);
    var after := if s.store["b"].applied then [Return(false, PLAIN)] else [];
    OneToggle(built, e, after);
    var q := built + [e] + after;
    assert SetInline(p, v) == q + [Return(false, PLAIN)];
    ReachedRun(built, e, after);
    ReachedStep(q, Return(false, PLAIN));
    InlineToggleLeavesNone(built, e, after, false, PLAIN);
    ReachedInv(q + [Return(false, PLAIN)]);
    RevertOverRun(built, [e] + after + [Return(false, PLAIN)]);
    assert built + ([e] + after + [Return(false, PLAIN)]) == SetInline(p, v);
    ReachedInv(q);
    MainAgain(Reached(q));
    AppliedMeansDone(Reached(q + [Return(false, PLAIN)]), "b");
  }

  lemma MainAgain(s: State)
    requires Inv(s) && |s.frames| == 3 && Top(s).User? && s.frames[0] == Main && s.frames[1].Toggle? &&
             s.frames[1].stage.Implementing?
    ensures Step(s, Return(false, PLAIN)).frames == [Main]
  {
    hide Inv, DoReturn;
    DisposedByReturn(s, false, PLAIN);
  }

  lemma RevertOverRun(before: seq<Event>, after: seq<Event>)
    requires "b" in Reached(before).store
    ensures var s, t := Reached(before), Reached(before + after);
            "b" in t.store && RefAt(t, RevertOf("b")) == RefAt(s, RevertOf("b"))
  {
    hide Run, Inv, Advances, RefAt;
    ReachedInv(before);
    RunAppend(Init(), before, after);
    RunKeeps(Reached(before), after);
    RevertStands(Reached(before), Reached(before + after), "b");
  }

  // With nothing running, a behavior is applied after the boundary only.
  lemma AppliedMeansDone(s: State, n: string)
    requires Inv(s) && s.frames == [Main] && n in s.store && s.store[n].applied
    ensures s.boundaryDone
  {
    hide Ledger, Placed, Stack, Fresh, History, RefAt, ValueAt;
    assert TruthOf(s, n);
  }

  lemma ReachedRun(before: seq<Event>, e: Event, after: seq<Event>)
    ensures Reached(before + [e] + after) == Run(Step(Reached(before), e), after)
  {
    hide Step, Run;
    RunAppend(Init(), before + [e], after);
    ReachedStep(before, e);
  }

  lemma BuiltInline(s: State, v: Value)
    requires Inv(s) && s.frames == [Main] && v.Obj?
    ensures var t := Step(s, Build(v, 0)); var h := s.nextHandle;
            t.frames == [Main] && t.boundaryDone == s.boundaryDone && t.store == s.store && BuiltValue(t, h) &&
            Read(t, h) == Ok(v)
  {
    hide Ledger, Placed, Stack, Truth, Fresh, History, MintBuilt, RefAt, ValueAt;
    NoHandle(s);
    MintBuiltCells(s, 0, v);
  }

  lemma ReadyToToggle(s: State, e: Event)
    requires s.frames == [Main] && s.boundaryDone && e.Set? && !e.earlyStop && e.n in s.store && BuiltValue(s, e.h)
    requires RefAt(s, RevertOf(e.n)) != NO_REF
    ensures TogglesInline(s, e)
  {
    hide BuiltValue, RefAt;
  }

  // The callbacks of the toggle, up to the return of its implementation.
  lemma OneToggle(built: seq<Event>, e: Event, after: seq<Event>)
    requires var s := Reached(built); s.frames == [Main] && TogglesInline(s, e) && e.entering == PLAIN
    requires e.Set? && e.n in Reached(built).store
    requires after == if Reached(built).store[e.n].applied then [Return(false, PLAIN)] else []
    ensures var t := Run(Step(Reached(built), e), after);
            t.edges == Step(Reached(built), e).edges && StaysOn(Step(Reached(built), e), after, 1) && |t.frames| == 3 &&
            Top(t).User? && t.frames[0] == Main &&
            t.frames[1].Toggle? && t.frames[1].name == e.n && t.frames[1].stage.Implementing?
  {
    hide Inv, Reached, Step, Run, StaysOn, TogglesInline;
    var s := Reached(built);
    var s1 := Step(s, e);
    ReachedInv(built);
    StepKeeps(s, e);
    ToggleBegun(s, e);
    if s.store[e.n].applied {
      RevertReturns(s1);
      OneReturn(s1);
    } else {
      NoReturn(s1);
    }
  }

  lemma ToggleBegun(s: State, e: Event)
    requires Inv(s) && s.frames == [Main] && TogglesInline(s, e) && e.entering == PLAIN
    ensures var t := Step(s, e);
            |t.frames| == 3 && Top(t).User? && t.frames[0] == Main && t.frames[1].Toggle? && t.frames[1].name == e.n &&
            (t.frames[1].stage.Implementing? <==> !s.store[e.n].applied)
  {
    hide Inv, Core, Ledger, Pin, BeginToggle, RefAt, ValueAt, BuiltValue;
    PinnedToggle(s, e.h, e.hint);
    var s1 := Pin(s, e.h, e.hint);
    ToggleBegins(s1, e.n, None, e.entering);
    StageBegun(s1, e.n);
  }

  lemma StageBegun(s: State, n: string)
    requires Core(s) && UserOnTop(s) && n in s.store && RefAt(s, RevertOf(n)) != NO_REF
    ensures var t := BeginToggle(s, n, None, PLAIN);
            |t.frames| > |s.frames| && t.frames[|s.frames|].Toggle? &&
            (t.frames[|s.frames|].stage.Implementing? <==> !s.store[n].applied)
  {
    hide Core, Move, Enter, RefAt, ValueAt;
    var s1 := Move(Push(s, Toggle(n, Reverting(ValueAt(s, Local(0))), None)), Local(0), FrameOf(|s.frames|));
    PushToggleFacts(s, n, None);
    if s.store[n].applied {
      var v := ValueAt(s1, RecordOf(n));
      EnterFrames(Log(Touch(s1, RefAt(s1, RecordOf(n))), RevertCalled(n, v)), RevertOf(n), [v], PLAIN);
    } else {
      CallImplementationFrames(s1, PLAIN);
    }
  }

  lemma RevertReturns(s: State)
    requires Inv(s) && |s.frames| == 3 && Top(s).User? && s.frames[0] == Main && s.frames[1].Toggle? &&
             s.frames[1].stage.Reverting?
    ensures var t := Step(s, Return(false, PLAIN));
            t.edges == s.edges && |t.frames| == 3 && Top(t).User? && t.frames[0] == Main && t.frames[1].Toggle? &&
            t.frames[1].name == s.frames[1].name &&
            t.frames[1].stage.Implementing?
  {
    hide Inv, Core, Leave, CallImplementation, RefAt, ValueAt;
    ReturnToToggle(s, false, PLAIN);
    CallImplementationFrames(Leave(s, false), PLAIN);
    CallImplementationEdges(Leave(s, false), PLAIN);
    LeaveGoes(s, false);
  }

  lemma NoReturn(s: State)
    requires |s.frames| > 1
    ensures Run(s, []) == s && StaysOn(s, [], 1)
  {
    hide Step;
    var none: seq<Event> := [];
    assert none[..0] == none;
  }

  lemma OneReturn(s: State)
    requires |s.frames| > 1 && |Step(s, Return(false, PLAIN)).frames| > 1
    ensures Run(s, [Return(false, PLAIN)]) == Step(s, Return(false, PLAIN)) && StaysOn(s, [Return(false, PLAIN)], 1)
  {
    hide Step;
    var es := [Return(false, PLAIN)];
    assert Run(s, es) == Run(Step(s, es[0]), es[1..]);
    assert es[..0] == [] && es[..1] == es;
  }
}
