/**
 The off-thread sets over whole runs: they are run in the order in which they were queued, each once,
 and each with the value that was staged for it.
 */
module BehaviorQueue {
  import opened Options
  import opened RefLedger
  import opened BehaviorSteps
  import opened BehaviorInvariant
  import opened BehaviorRuns
  import opened BehaviorTheorems
  import BehaviorHandles
  import opened BehaviorNil
  import opened BehaviorEdges

  // The sets queued so far, in the order of the calls.
  ghost function Queued(events: seq<Event>): seq<QueuedSet> {
    if events == [] then [] else
    var s, e := Reached(events[..|events| - 1]), events[|events| - 1];
    Queued(events[..|events| - 1]) +
    if Queues(s, e) then [QueuedSet(e.n, e.author, e.plugin, s.handles[e.h].payload)] else []
  }

  // The main thread has time for the queue, and something is in it.
  predicate Takes(s: State, e: Event) {
    e.RunQueued? && s.queue != [] && s.frames == [Main]
  }

  // The sets run so far, in the order of the runs.
  ghost function Taken(events: seq<Event>): seq<QueuedSet> {
    if events == [] then [] else
    var s, e := Reached(events[..|events| - 1]), events[|events| - 1];
    Taken(events[..|events| - 1]) + if Takes(s, e) then [s.queue[0]] else []
  }

  // In every run, what was queued is what was run, in the same order, followed by what still waits.
  lemma {:induction false} QueuedInOrder(events: seq<Event>)
    ensures Queued(events) == Taken(events) + Reached(events).queue
    decreases |events|
  {
    hide Reached, Step;
    if events == [] {
      ReachedNothing();
    } else {
      var k := |events| - 1;
      QueuedInOrder(events[..k]);
      StepQueueGoes(Reached(events[..k]), events[k]);
      assert events[..k + 1] == events;
      ReachedNext(events, k);
    }
  }

  // The handle has been queued: it is not new, and a staged handle of that id is consumed.
  predicate Used(s: State, h: nat) {
    h < s.nextHandle && (h in s.handles && s.handles[h].StagedHandle? ==> s.handles[h].consumed)
  }

  lemma QueuedIsUsed(s: State, e: Event)
    requires Inv(s) && Queues(s, e)
    ensures Used(Step(s, e), e.h)
  {
    hide Ledger, Stack, Truth, Fresh, History;
  }

  lemma UsedStays(s: State, e: Event, h: nat)
    requires Inv(s) && BehaviorHandles.Transients(s) && Used(s, h)
    ensures Used(Step(s, e), h)
  {
    hide Inv, Step, BehaviorHandles.Transients;
    BehaviorHandles.StepGoes(s, e);
    if h in Step(s, e).handles && Step(s, e).handles[h].StagedHandle? { StepStages(s, e, h); }
  }

  lemma {:induction false} UsedSince(events: seq<Event>, j: nat, k: nat)
    requires j < k <= |events| && Queues(Reached(events[..j]), events[j])
    ensures Used(Reached(events[..k]), events[j].h)
    decreases k
  {
    hide Inv, Reached, Step, Used, Run, BehaviorHandles.Transients, BehaviorHandles.HandlesGo;
    var s := Reached(events[..k - 1]);
    ReachedInv(events[..k - 1]);
    ReachedNext(events, k - 1);
    if j == k - 1 {
      QueuedIsUsed(s, events[j]);
    } else {
      UsedSince(events, j, k - 1);
      ReachedTransients(events[..k - 1]);
      UsedStays(s, events[k - 1], events[j].h);
    }
  }

  lemma ReachedTransients(events: seq<Event>)
    ensures BehaviorHandles.Transients(Reached(events))
  {
    hide Inv, Run, BehaviorHandles.Transients, BehaviorHandles.HandlesGo;
    InitInv();
    BehaviorHandles.InitTransients();
    BehaviorHandles.RunGoes(Init(), events);
  }

  // A staged value is queued once at most.
  lemma QueuedOnce(events: seq<Event>, j: nat, k: nat)
    requires j < k < |events| && Queues(Reached(events[..j]), events[j]) && Queues(Reached(events[..k]), events[k])
    ensures events[j].h != events[k].h
  {
    hide Reached;
    UsedSince(events, j, k);
  }

  // A staged handle of a reached state holds what the builder was given that minted it.
  lemma {:induction false} StagedByTheBuilder(events: seq<Event>, h: nat)
    requires h in Reached(events).handles && Reached(events).handles[h].StagedHandle?
    ensures exists k :: 0 <= k < |events| && events[k] == Stage(Reached(events).handles[h].payload) &&
                        Reached(events[..k]).nextHandle == h && Reached(events[..k]).boundaryDone
    decreases |events|
  {
    hide Reached, Step;
    if events == [] {
      ReachedNothing();
    } else {
      var k := |events| - 1;
      var s := Reached(events[..k]);
      assert events[..k + 1] == events;
      ReachedNext(events, k);
      StepStages(s, events[k], h);
      if h in s.handles && s.handles[h].StagedHandle? && s.handles[h].payload == Reached(events).handles[h].payload {
        StagedByTheBuilder(events[..k], h);
        var j :| 0 <= j < k && events[..k][j] == Stage(s.handles[h].payload) &&
        Reached(events[..k][..j]).nextHandle == h
                 && Reached(events[..k][..j]).boundaryDone;
        assert events[..k][..j] == events[..j];
      }
    }
  }

  // A staged handle is old, or a builder has just minted it.
  lemma StepStages(s: State, e: Event, h: nat)
    requires var t := Step(s, e); h in t.handles && t.handles[h].StagedHandle?
    ensures var t := Step(s, e);
            (h in s.handles && s.handles[h].StagedHandle? && s.handles[h].payload == t.handles[h].payload &&
             (s.handles[h].consumed ==> t.handles[h].consumed)) ||
            (e == Stage(t.handles[h].payload) && s.nextHandle == h && s.boundaryDone)
  {
    hide MintBuilt, DoConsumeChild, DoGet, DoDeclare, DoSet, DoInvoke, DoReturn, DoRunQueued, DoDrainNext;
    if e.RunQueued? {
      RunQueuedStages(s, e, h);
    } else if !e.Stage? && !e.QueueSet? {
      StepSameQueueAll(s, e);
    }
  }

  lemma RunQueuedStages(s: State, e: Event, h: nat)
    requires e.RunQueued? && h in Step(s, e).handles && Step(s, e).handles[h].StagedHandle?
    ensures h in s.handles && s.handles[h] == Step(s, e).handles[h]
  {
    hide Ref, BeginToggle;
    if s.queue != [] && s.frames == [Main] && s.queue[0].name in s.store {
      var q, s1 := s.queue[0], s.(queue := s.queue[1..]);
      BeginToggleQueue(Ref(s1, e.hint, q.payload, Local(0)), q.name, Some(Edge(q.author, q.plugin, q.name)),
                       e.entering);
    }
  }
}
