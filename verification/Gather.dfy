/** The loop that consumes events until the strategy and its stop condition are satisfied. */
module Gathering {
  import opened Wrappers
  import opened Json
  import opened Engine
  import opened Listen

  /** What the subscription delivers before it closes; an interruption is a cancelled execution. */
  datatype Arrival = Arrived(event: Event) | Interrupted

  datatype Progress = Progress(
    consumed: seq<Event>, satisfied: seq<bool>, untilState: seq<bool>, untilSatisfied: bool, group: Group)

  function AllFalse(n: nat): seq<bool> {
    seq(n, _ => false)
  }

  predicate AllTrue(flags: seq<bool>) {
    forall i | 0 <= i < |flags| :: flags[i]
  }

  function Fresh(setup: Setup): Progress {
    Progress([], AllFalse(|setup.filters|), AllFalse(|setup.untilFilters|), false, map[])
  }

  predicate WellFormed(setup: Setup, p: Progress) {
    |p.satisfied| == |setup.filters| && |p.untilState| == |setup.untilFilters|
  }

  // ----- One event -----

  datatype Swept = Swept(flags: seq<bool>, group: Group, advanced: bool)

  /** Offers the event to every filter from i on that has not matched yet. */
  function Sweep(filters: seq<Filter>, flags: seq<bool>, i: nat, event: Event, view: View, group: Group): (r: Swept)
    requires i <= |filters| == |flags|
    ensures |r.flags| == |flags|
    decreases |filters| - i
  {
    if i == |filters| then Swept(flags, group, false)
    else if flags[i] then Sweep(filters, flags, i + 1, event, view, group)
    else
      match Match(filters[i], event, view, group)
      case None => Sweep(filters, flags, i + 1, event, view, group)
      case Some(now) => Sweep(filters, flags[i := true], i + 1, event, view, now).(advanced := true)
  }

  predicate AnyMatches(filters: seq<Filter>, event: Event, view: View, group: Group) {
    exists i | 0 <= i < |filters| :: Match(filters[i], event, view, group).Some?
  }

  datatype Accepted = Accepted(progress: Progress, accepted: bool)

  /** The strategy's own filters. A single match leaves the group alone. */
  function Accept(setup: Setup, p: Progress, event: Event): (r: Accepted)
    requires WellFormed(setup, p)
    ensures WellFormed(setup, r.progress)
  {
    if setup.need.One? then
      if setup.filters == [] || AnyMatches(setup.filters, event, setup.view, p.group)
      then Accepted(p.(consumed := p.consumed + [event]), true)
      else Accepted(p, false)
    else
      var r := Sweep(setup.filters, p.satisfied, 0, event, setup.view, p.group);
      var next := p.(satisfied := r.flags, group := r.group);
      Accepted(if r.advanced then next.(consumed := p.consumed + [event]) else next, r.advanced)
  }

  /** The filters of the stop strategy. */
  function Until(setup: Setup, p: Progress, accepted: bool, event: Event): (r: Progress)
    requires WellFormed(setup, p)
    ensures WellFormed(setup, r)
  {
    if setup.untilFilters == [] then p
    else
      var r := Sweep(setup.untilFilters, p.untilState, 0, event, setup.view, p.group);
      var next := p.(untilState := r.flags, group := r.group);
      if !r.advanced then next
      else next.(consumed := if accepted then p.consumed else p.consumed + [event], untilSatisfied := AllTrue(r.flags))
  }

  function ReadAll(events: seq<Event>, read: string): Value {
    Arr(seq(|events|, i requires 0 <= i < |events| => READ(read, events[i])))
  }

  /** The stop expression, over everything consumed so far. */
  function UntilHolds(setup: Setup, p: Progress): Result<Progress, Problem> {
    if setup.untilExpression.None? then Ok(p)
    else
      var holds :- Condition(setup.untilExpression.value, ReadAll(p.consumed, setup.read), setup.view);
      Ok(if holds then p.(untilSatisfied := true) else p)
  }

  function Receive(setup: Setup, p: Progress, event: Event): (r: Result<Progress, Problem>)
    requires WellFormed(setup, p)
    ensures r.Ok? ==> WellFormed(setup, r.value)
  {
    var a := Accept(setup, p, event);
    UntilHolds(setup, Until(setup, a.progress, a.accepted, event))
  }

  // ----- The loop -----

  predicate BaseSatisfied(setup: Setup, p: Progress) {
    match setup.need
    case One => p.consumed != [] || (setup.HasUntil() && setup.filters == [])
    case All => AllTrue(p.satisfied)
  }

  predicate Satisfied(setup: Setup, p: Progress) {
    BaseSatisfied(setup, p) && (!setup.HasUntil() || p.untilSatisfied)
  }

  function Gather(setup: Setup, p: Progress, arrivals: seq<Arrival>): (r: Result<Progress, Problem>)
    requires WellFormed(setup, p)
    ensures r.Ok? ==> WellFormed(setup, r.value)
    decreases |arrivals|
  {
    if Satisfied(setup, p) || arrivals == [] then Ok(p)
    else if arrivals[0].Interrupted? then Err(Cancelled)
    else
      var next :- Receive(setup, p, arrivals[0].event);
      Gather(setup, next, arrivals[1..])
  }

  method SweepFilters(filters: seq<Filter>, flags: seq<bool>, event: Event, view: View, group: Group)
    returns (now: seq<bool>, next: Group, advanced: bool)
    requires |filters| == |flags|
    ensures Swept(now, next, advanced) == Sweep(filters, flags, 0, event, view, group)
  {
    now, next, advanced := flags, group, false;
    ghost var whole := Sweep(filters, flags, 0, event, view, group);
    for i := 0 to |filters|
      invariant |now| == |filters|
      invariant var rest := Sweep(filters, now, i, event, view, next);
                whole == rest.(advanced := advanced || rest.advanced)
    {
      if !now[i] {
        var matched, after := Listen.FilterMatches(filters[i], event, view, next);
        if matched {
          now, next, advanced := now[i := true], after, true;
        }
      }
    }
  }

  method OfferToStrategy(setup: Setup, p: Progress, event: Event) returns (next: Progress, accepted: bool)
    requires WellFormed(setup, p)
    ensures Accepted(next, accepted) == Accept(setup, p, event)
  {
    hide Sweep, AnyMatches;
    next, accepted := p, false;
    if setup.need.One? {
      if setup.filters == [] || AnyMatches(setup.filters, event, setup.view, p.group) {
        next, accepted := p.(consumed := p.consumed + [event]), true;
      }
    } else {
      var flags, group, advanced := SweepFilters(setup.filters, p.satisfied, event, setup.view, p.group);
      next := p.(satisfied := flags, group := group);
      if advanced {
        next, accepted := next.(consumed := p.consumed + [event]), true;
      }
    }
  }

  method OfferToUntil(setup: Setup, p: Progress, accepted: bool, event: Event) returns (next: Progress)
    requires WellFormed(setup, p)
    ensures next == Until(setup, p, accepted, event)
  {
    hide Sweep;
    next := p;
    if setup.untilFilters != [] {
      var flags, group, advanced := SweepFilters(setup.untilFilters, p.untilState, event, setup.view, p.group);
      next := p.(untilState := flags, group := group);
      if advanced {
        if !accepted {
          next := next.(consumed := p.consumed + [event]);
        }
        next := next.(untilSatisfied := AllTrue(flags));
      }
    }
  }

  /** Consumes arrivals until the listen is satisfied or the subscription closes. */
  method GatherListenEvents(setup: Setup, arrivals: seq<Arrival>) returns (r: Result<seq<Event>, Problem>)
    ensures match Gather(setup, Fresh(setup), arrivals)
            case Ok(p) => r == Ok(p.consumed)
            case Err(problem) => r == Err(problem)
  {
    hide Accept, Until, Condition, Satisfied;
    var p := Fresh(setup);
    var i := 0;
    assert arrivals[0..] == arrivals;
    while true
      invariant i <= |arrivals| && WellFormed(setup, p)
      invariant Gather(setup, Fresh(setup), arrivals) == Gather(setup, p, arrivals[i..])
      decreases |arrivals| - i
    {
      if Satisfied(setup, p) {
        return Ok(p.consumed);
      }
      if i == |arrivals| {
        return Ok(p.consumed);
      }
      if arrivals[i].Interrupted? {
        return Err(Cancelled);
      }
      assert arrivals[i..][1..] == arrivals[i + 1..];
      var event := arrivals[i].event;
      var accepted;
      p, accepted := OfferToStrategy(setup, p, event);
      p := OfferToUntil(setup, p, accepted, event);
      if setup.untilExpression.Some? {
        var holds := Condition(setup.untilExpression.value, ReadAll(p.consumed, setup.read), setup.view);
        if holds.Err? {
          return Err(holds.error);
        }
        if holds.value {
          p := p.(untilSatisfied := true);
        }
      }
      i := i + 1;
    }
  }

  // ----- What every sweep keeps -----

  function Count(flags: seq<bool>): nat {
    if flags == [] then 0 else (if flags[0] then 1 else 0) + Count(flags[1..])
  }

  lemma {:induction false} CountRaised(flags: seq<bool>, i: nat)
    requires i < |flags| && !flags[i]
    ensures Count(flags[i := true]) == Count(flags) + 1
  {
    var raised := flags[i := true];
    if i == 0 {
      assert raised[1..] == flags[1..];
    } else {
      assert raised[1..] == flags[1..][i - 1 := true];
      CountRaised(flags[1..], i - 1);
    }
  }

  lemma {:induction false} CountBounded(flags: seq<bool>)
    ensures Count(flags) <= |flags|
  {
    if flags != [] {
      CountBounded(flags[1..]);
    }
  }

  lemma {:induction false} CountNone(n: nat)
    ensures Count(AllFalse(n)) == 0
  {
    if n > 0 {
      assert AllFalse(n)[1..] == AllFalse(n - 1);
      CountNone(n - 1);
    }
  }

  /** Every flag raised by a sweep belongs to a filter the event fits; the group only grows. */
  lemma {:induction false} SweepFits(
    filters: seq<Filter>, flags: seq<bool>, i: nat, event: Event, view: View, group: Group)
    requires i <= |filters| == |flags|
    ensures var r := Sweep(filters, flags, i, event, view, group);
            && Extends(group, r.group)
            && (forall k | 0 <= k < |flags| :: r.flags[k] ==> flags[k] || Fits(filters[k], event, view, r.group))
            && (forall k | 0 <= k < |flags| :: flags[k] ==> r.flags[k])
            && Count(r.flags) >= Count(flags) + if r.advanced then 1 else 0
    decreases |filters| - i
  {
    hide Match, Fits, Count;
    var r := Sweep(filters, flags, i, event, view, group);
    if i < |filters| {
      var m := Match(filters[i], event, view, group);
      if flags[i] || m.None? {
        SweepFits(filters, flags, i + 1, event, view, group);
      } else {
        MatchFits(filters[i], event, view, group);
        CountRaised(flags, i);
        SweepFits(filters, flags[i := true], i + 1, event, view, m.value);
        StillFits(filters[i], event, view, m.value, r.group);
      }
    }
  }

  // ----- What the whole loop keeps -----

  /** Some event of the list fits the filter. */
  ghost predicate FitsSome(filter: Filter, events: seq<Event>, view: View, group: Group) {
    exists e :: e in events && Fits(filter, e, view, group)
  }

  lemma StillFitsSome(filter: Filter, events: seq<Event>, more: seq<Event>, view: View, before: Group, now: Group)
    requires FitsSome(filter, events, view, before) && Extends(before, now)
    ensures FitsSome(filter, events + more, view, now)
  {
    hide Fits;
    var e :| e in events && Fits(filter, e, view, before);
    StillFits(filter, e, view, before, now);
    assert e in events + more;
  }

  /** a comes from b by leaving events out. */
  ghost predicate Subsequence(a: seq<Event>, b: seq<Event>) {
    a == [] || (b != [] && (Subsequence(a, b[..|b| - 1])
                            || (a[|a| - 1] == b[|b| - 1] && Subsequence(a[..|a| - 1], b[..|b| - 1]))))
  }

  lemma OneMore(a: seq<Event>, b: seq<Event>, e: Event)
    requires Subsequence(a, b)
    ensures Subsequence(a, b + [e]) && Subsequence(a + [e], b + [e])
  {
    assert (b + [e])[..|b|] == b && (a + [e])[..|a|] == a;
  }

  ghost predicate Matched(filters: seq<Filter>, flags: seq<bool>, events: seq<Event>, view: View, group: Group) {
    |flags| == |filters| && forall i | 0 <= i < |flags| :: flags[i] ==> FitsSome(filters[i], events, view, group)
  }

  ghost predicate Good(setup: Setup, p: Progress, seen: seq<Event>) {
    && Matched(setup.filters, p.satisfied, p.consumed, setup.view, p.group)
    && Matched(setup.untilFilters, p.untilState, p.consumed, setup.view, p.group)
    && Subsequence(p.consumed, seen)
    && (setup.need.All? ==> |p.consumed| <= Count(p.satisfied) + Count(p.untilState))
    && (setup.untilFilters != [] && setup.untilExpression.None? && p.untilSatisfied ==> AllTrue(p.untilState))
  }

  lemma FreshIsGood(setup: Setup)
    ensures Good(setup, Fresh(setup), [])
  {
  }

  /** Sweeping an event keeps every earlier match; the raised flags are matched once the event is consumed. */
  lemma SweepKeepsMatched(
    filters: seq<Filter>, flags: seq<bool>, events: seq<Event>, event: Event, view: View, group: Group)
    requires Matched(filters, flags, events, view, group)
    ensures var r := Sweep(filters, flags, 0, event, view, group);
            Matched(filters, r.flags, events + [event], view, r.group)
  {
    hide Sweep, Fits, Count, FitsSome;
    SweepFits(filters, flags, 0, event, view, group);
    var r := Sweep(filters, flags, 0, event, view, group);
    forall i | 0 <= i < |r.flags| && r.flags[i] ensures FitsSome(filters[i], events + [event], view, r.group) {
      if flags[i] {
        StillFitsSome(filters[i], events, [event], view, group, r.group);
      } else {
        FitsLast(filters[i], events, event, view, r.group);
      }
    }
  }

  lemma FitsLast(filter: Filter, events: seq<Event>, event: Event, view: View, group: Group)
    requires Fits(filter, event, view, group)
    ensures FitsSome(filter, events + [event], view, group)
  {
    hide Fits;
    assert event in events + [event];
  }

  lemma StillMatched(
    filters: seq<Filter>, flags: seq<bool>, events: seq<Event>, more: seq<Event>, view: View, before: Group, now: Group)
    requires Matched(filters, flags, events, view, before) && Extends(before, now)
    ensures Matched(filters, flags, events + more, view, now)
  {
    hide FitsSome;
    forall i | 0 <= i < |flags| && flags[i] ensures FitsSome(filters[i], events + more, view, now) {
      StillFitsSome(filters[i], events, more, view, before, now);
    }
  }

  /** A sweep that does not advance changes nothing. */
  lemma {:induction false} IdleSweep(
    filters: seq<Filter>, flags: seq<bool>, i: nat, event: Event, view: View, group: Group)
    requires i <= |filters| == |flags|
    ensures var r := Sweep(filters, flags, i, event, view, group);
            !r.advanced ==> r.flags == flags && r.group == group
    decreases |filters| - i
  {
    hide Match;
    if i < |filters| && (flags[i] || Match(filters[i], event, view, group).None?) {
      IdleSweep(filters, flags, i + 1, event, view, group);
    }
  }

  lemma AcceptKeepsGood(setup: Setup, p: Progress, seen: seq<Event>, event: Event)
    requires Good(setup, p, seen)
    ensures var a := Accept(setup, p, event);
            && Good(setup, a.progress, seen + [event])
            && (a.accepted <==> a.progress.consumed == p.consumed + [event])
            && (!a.accepted ==> a.progress == p)
  {
    hide Sweep, Count, FitsSome, AnyMatches, Subsequence, AllTrue;
    OneMore(p.consumed, seen, event);
    assert |p.consumed + [event]| > |p.consumed|;
    if setup.need.One? {
      assert Extends(p.group, p.group);
      StillMatched(setup.filters, p.satisfied, p.consumed, [event], setup.view, p.group, p.group);
      StillMatched(setup.untilFilters, p.untilState, p.consumed, [event], setup.view, p.group, p.group);
    } else {
      var r := Sweep(setup.filters, p.satisfied, 0, event, setup.view, p.group);
      SweepFits(setup.filters, p.satisfied, 0, event, setup.view, p.group);
      IdleSweep(setup.filters, p.satisfied, 0, event, setup.view, p.group);
      if r.advanced {
        SweepKeepsMatched(setup.filters, p.satisfied, p.consumed, event, setup.view, p.group);
        StillMatched(setup.untilFilters, p.untilState, p.consumed, [event], setup.view, p.group, r.group);
      }
    }
  }

  lemma {:induction false} ReceiveKeepsGood(setup: Setup, p: Progress, seen: seq<Event>, event: Event)
    requires Good(setup, p, seen)
    ensures Receive(setup, p, event).Ok? ==> Good(setup, Receive(setup, p, event).value, seen + [event])
  {
    hide Accept, Sweep, Count, FitsSome, Subsequence, AllTrue, Condition;
    AcceptKeepsGood(setup, p, seen, event);
    OneMore(p.consumed, seen, event);
    var a := Accept(setup, p, event);
    var q := a.progress;
    var r := Sweep(setup.untilFilters, q.untilState, 0, event, setup.view, q.group);
    SweepFits(setup.untilFilters, q.untilState, 0, event, setup.view, q.group);
    IdleSweep(setup.untilFilters, q.untilState, 0, event, setup.view, q.group);
    if setup.untilFilters != [] && r.advanced {
      UntilKeepsGood(setup, p, q, seen, event, a.accepted);
    }
  }

  lemma UntilKeepsGood(setup: Setup, p: Progress, q: Progress, seen: seq<Event>, event: Event, accepted: bool)
    requires Good(setup, q, seen + [event]) && Good(setup, p, seen) && setup.untilFilters != []
    requires if accepted then q.consumed == p.consumed + [event] else q == p
    requires Sweep(setup.untilFilters, q.untilState, 0, event, setup.view, q.group).advanced
    ensures Good(setup, Until(setup, q, accepted, event), seen + [event])
  {
    hide Sweep, Count, FitsSome, Subsequence, AllTrue;
    var r := Sweep(setup.untilFilters, q.untilState, 0, event, setup.view, q.group);
    SweepFits(setup.untilFilters, q.untilState, 0, event, setup.view, q.group);
    OneMore(p.consumed, seen, event);
    if accepted {
      SweepOverConsumed(setup.untilFilters, q.untilState, q.consumed, event, setup.view, q.group);
      StillMatched(setup.filters, q.satisfied, q.consumed, [], setup.view, q.group, r.group);
      assert q.consumed + [] == q.consumed;
    } else {
      SweepKeepsMatched(setup.untilFilters, q.untilState, q.consumed, event, setup.view, q.group);
      StillMatched(setup.filters, q.satisfied, q.consumed, [event], setup.view, q.group, r.group);
    }
  }

  /** An event already consumed by the strategy serves the stop filters as well. */
  lemma SweepOverConsumed(
    filters: seq<Filter>, flags: seq<bool>, events: seq<Event>, event: Event, view: View, group: Group)
    requires Matched(filters, flags, events, view, group) && event in events
    ensures var r := Sweep(filters, flags, 0, event, view, group);
            Matched(filters, r.flags, events, view, r.group)
  {
    hide Sweep, Fits, Count;
    SweepFits(filters, flags, 0, event, view, group);
    var r := Sweep(filters, flags, 0, event, view, group);
    forall i | 0 <= i < |r.flags| && r.flags[i] ensures FitsSome(filters[i], events, view, r.group) {
      if flags[i] {
        StillFitsSome(filters[i], events, [], view, group, r.group);
        assert events + [] == events;
      }
    }
  }

  function Events(arrivals: seq<Arrival>): seq<Event> {
    if arrivals == [] then []
    else (if arrivals[0].Arrived? then [arrivals[0].event] else []) + Events(arrivals[1..])
  }

  lemma {:induction false} WiderSubsequence(a: seq<Event>, b: seq<Event>, more: seq<Event>)
    requires Subsequence(a, b)
    ensures Subsequence(a, b + more)
    decreases |more|
  {
    if more == [] {
      assert b + more == b;
    } else {
      OneMore(a, b, more[0]);
      WiderSubsequence(a, b + [more[0]], more[1..]);
      assert b + [more[0]] + more[1..] == b + more;
    }
  }

  lemma {:induction false} GatherKeepsGood(setup: Setup, p: Progress, seen: seq<Event>, arrivals: seq<Arrival>)
    requires Good(setup, p, seen)
    ensures Gather(setup, p, arrivals).Ok? ==> Good(setup, Gather(setup, p, arrivals).value, seen + Events(arrivals))
    decreases |arrivals|
  {
    hide Receive, Count, FitsSome, Subsequence, AllTrue, Satisfied;
    if Satisfied(setup, p) || arrivals == [] {
      WiderSubsequence(p.consumed, seen, Events(arrivals));
    } else if arrivals[0].Arrived? {
      var event := arrivals[0].event;
      ReceiveKeepsGood(setup, p, seen, event);
      var next := Receive(setup, p, event);
      if next.Ok? {
        GatherKeepsGood(setup, next.value, seen + [event], arrivals[1..]);
        assert seen + [event] + Events(arrivals[1..]) == seen + Events(arrivals);
      }
    }
  }

  /** Nothing is taken back: no key is bound anew, no event is given up, no filter falls back. */
  ghost predicate GoesOn(p: Progress, q: Progress) {
    && Extends(p.group, q.group) && p.consumed <= q.consumed
    && |p.satisfied| == |q.satisfied| && (forall i | 0 <= i < |p.satisfied| :: p.satisfied[i] ==> q.satisfied[i])
    && |p.untilState| == |q.untilState| && (forall i | 0 <= i < |p.untilState| :: p.untilState[i] ==> q.untilState[i])
  }

  lemma AcceptGoesOn(setup: Setup, p: Progress, event: Event)
    requires WellFormed(setup, p)
    ensures GoesOn(p, Accept(setup, p, event).progress)
  {
    hide Sweep, AnyMatches;
    if setup.need.All? {
      SweepFits(setup.filters, p.satisfied, 0, event, setup.view, p.group);
    }
  }

  lemma UntilGoesOn(setup: Setup, p: Progress, accepted: bool, event: Event)
    requires WellFormed(setup, p)
    ensures GoesOn(p, Until(setup, p, accepted, event))
  {
    hide Sweep;
    SweepFits(setup.untilFilters, p.untilState, 0, event, setup.view, p.group);
  }

  lemma StillGoesOn(p: Progress, q: Progress, r: Progress)
    requires GoesOn(p, q) && GoesOn(q, r)
    ensures GoesOn(p, r)
  {
  }

  lemma ReceiveGoesOn(setup: Setup, p: Progress, event: Event)
    requires WellFormed(setup, p) && Receive(setup, p, event).Ok?
    ensures GoesOn(p, Receive(setup, p, event).value)
  {
    hide Accept, Until, Condition;
    var a := Accept(setup, p, event);
    AcceptGoesOn(setup, p, event);
    UntilGoesOn(setup, a.progress, a.accepted, event);
    var q := Until(setup, a.progress, a.accepted, event);
    StillGoesOn(p, a.progress, q);
    ExpressionGoesOn(setup, q);
    StillGoesOn(p, q, Receive(setup, p, event).value);
  }

  lemma ExpressionGoesOn(setup: Setup, p: Progress)
    ensures UntilHolds(setup, p).Ok? ==> GoesOn(p, UntilHolds(setup, p).value)
  {
    hide Condition;
  }

  /** The same for the whole loop, over every sequence of arrivals. */
  lemma {:induction false} GatherGoesOn(setup: Setup, p: Progress, arrivals: seq<Arrival>)
    requires WellFormed(setup, p) && Gather(setup, p, arrivals).Ok?
    ensures GoesOn(p, Gather(setup, p, arrivals).value)
    decreases |arrivals|
  {
    hide Receive, Satisfied;
    if !Satisfied(setup, p) && arrivals != [] {
      var next := Receive(setup, p, arrivals[0].event).value;
      ReceiveGoesOn(setup, p, arrivals[0].event);
      GatherGoesOn(setup, next, arrivals[1..]);
      StillGoesOn(p, next, Gather(setup, p, arrivals).value);
    }
  }

  /** A satisfied `all` listen: every filter is fitted by a consumed event under one and the same group, the consumed
      events are received ones in order, and there are no more of them than filters. */
  lemma SatisfiedAllIsConsistent(setup: Setup, arrivals: seq<Arrival>)
    requires setup.need.All? && Gather(setup, Fresh(setup), arrivals).Ok?
    requires Satisfied(setup, Gather(setup, Fresh(setup), arrivals).value)
    ensures var p := Gather(setup, Fresh(setup), arrivals).value;
            && (forall f | f in setup.filters :: FitsSome(f, p.consumed, setup.view, p.group))
            && (setup.untilExpression.None? ==>
                  forall f | f in setup.untilFilters :: FitsSome(f, p.consumed, setup.view, p.group))
            && Subsequence(p.consumed, Events(arrivals))
            && |p.consumed| <= |setup.filters| + |setup.untilFilters|
  {
    hide Gather, Count, FitsSome, Subsequence;
    FreshIsGood(setup);
    GatherKeepsGood(setup, Fresh(setup), [], arrivals);
    assert [] + Events(arrivals) == Events(arrivals);
    var p := Gather(setup, Fresh(setup), arrivals).value;
    CountBounded(p.satisfied);
    CountBounded(p.untilState);
  }
}
