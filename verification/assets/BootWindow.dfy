/**
 The set of paths opened before the Lua VM came up.  Engine threads read the flag and, while it
 is down, insert in a step of their own; the flip and the queries interleave with them freely.
 */
module BootWindow {
  import opened PathFold

  // A thread that has found the flag down and has not inserted yet holds its key.
  datatype Boot = Boot(
    vmUp: bool,
    opened_: set<string>,
    inFlight: map<nat, string>,
    early: set<string>,        // history: the keys of threads that found the flag down
    atFlip: set<string>,       // history: what was in the set, and
    flying: set<nat>)          // which threads were in flight, when the flag went up

  datatype Event = Check(t: nat, key: string) | Insert(t: nat) | Flip

  function Init(): Boot {
    Boot(false, {}, map[], {}, {}, {})
  }

  function Step(s: Boot, e: Event): Boot {
    match e
    case Check(t, key) =>
      if s.vmUp || t in s.inFlight then s
      else s.(inFlight := s.inFlight[t := key], early := s.early + {key})
    case Insert(t) =>
      if t in s.inFlight then s.(opened_ := s.opened_ + {s.inFlight[t]}, inFlight := s.inFlight - {t}) else s
    case Flip => if s.vmUp then s else s.(vmUp := true, atFlip := s.opened_, flying := s.inFlight.Keys)
  }

  function Run(s: Boot, events: seq<Event>): Boot
    decreases |events|
  {
    if events == [] then s else Run(Step(s, events[0]), events[1..])
  }

  // WasBootOpened.
  function Query(s: Boot, path: string): bool {
    s.vmUp && Fold(path) in s.opened_
  }

  ghost predicate Inv(s: Boot) {
    && s.opened_ <= s.early
    && (forall t :: t in s.inFlight ==> s.inFlight[t] in s.early)
    && (s.vmUp ==>
          s.atFlip <= s.opened_ && s.inFlight.Keys <= s.flying &&
          |s.opened_ - s.atFlip| + |s.inFlight.Keys| <= |s.flying|)
  }

  lemma InsertCounts(opened_: set<string>, atFlip: set<string>, key: string, threads: set<nat>, t: nat)
    requires t in threads
    ensures |(opened_ + {key}) - atFlip| <= |opened_ - atFlip| + 1 && |threads - {t}| == |threads| - 1
  {
    assert (opened_ + {key}) - atFlip <= (opened_ - atFlip) + {key};
    Larger((opened_ + {key}) - atFlip, (opened_ - atFlip) + {key});
  }

  lemma Larger<T>(a: set<T>, b: set<T>)
    requires a <= b
    ensures |a| <= |b|
  {
    assert b == a + (b - a);
  }

  lemma StepKeeps(s: Boot, e: Event)
    requires Inv(s)
    ensures Inv(Step(s, e)) && s.opened_ <= Step(s, e).opened_ && (s.vmUp ==> Step(s, e).vmUp)
    ensures s.vmUp ==> Step(s, e).early == s.early && Step(s, e).atFlip == s.atFlip && Step(s, e).flying == s.flying
  {
    match e
    case Check(t, key) =>
    case Insert(t) =>
      if t in s.inFlight {
        assert (s.inFlight - {t}).Keys == s.inFlight.Keys - {t};
        InsertCounts(s.opened_, s.atFlip, s.inFlight[t], s.inFlight.Keys, t);
      }
    case Flip =>
      assert s.opened_ - s.opened_ == {};
  }

  lemma {:induction false} RunKeeps(s: Boot, events: seq<Event>)
    requires Inv(s)
    ensures var u := Run(s, events);
            Inv(u) && s.opened_ <= u.opened_ &&
            (s.vmUp ==> u.vmUp && u.early == s.early && u.atFlip == s.atFlip && u.flying == s.flying)
    decreases |events|
  {
    hide Step, Inv;
    if events != [] {
      StepKeeps(s, events[0]);
      RunKeeps(Step(s, events[0]), events[1..]);
    }
  }

  // Every insert completed before the flip is seen by every later query, however it is spelled.
  lemma CompletedInsertsAreSeen(before: seq<Event>, after: seq<Event>, path: string)
    requires var s := Run(Init(), before); !s.vmUp && Fold(path) in s.opened_
    ensures Query(Run(Step(Run(Init(), before), Flip), after), path)
  {
    hide Run;
    RunKeeps(Init(), before);
    var s := Run(Init(), before);
    StepKeeps(s, Flip);
    RunKeeps(Step(s, Flip), after);
  }

  // A query that answers yes names a key of a thread that found the flag down before the flip.
  lemma YesNamesAnEarlyOpen(before: seq<Event>, after: seq<Event>, path: string)
    requires !Run(Init(), before).vmUp
    requires Query(Run(Step(Run(Init(), before), Flip), after), path)
    ensures Fold(path) in Run(Init(), before).early
  {
    hide Run;
    RunKeeps(Init(), before);
    var s := Run(Init(), before);
    StepKeeps(s, Flip);
    RunKeeps(Step(s, Flip), after);
  }

  // After the flip the set only grows, by at most one key per thread still in flight then.
  lemma LateInsertsAreBounded(before: seq<Event>, after: seq<Event>)
    requires !Run(Init(), before).vmUp
    ensures var s := Run(Init(), before); var u := Run(Step(s, Flip), after);
            s.opened_ <= u.opened_ && |u.opened_ - s.opened_| <= |s.inFlight.Keys|
  {
    hide Run;
    RunKeeps(Init(), before);
    var s := Run(Init(), before);
    StepKeeps(s, Flip);
    RunKeeps(Step(s, Flip), after);
  }
}
