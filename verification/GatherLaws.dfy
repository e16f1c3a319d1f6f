/** Which events a listen consumes and when it stops, told by the filters and the keys alone. */
module GatherLaws {
  import opened Wrappers
  import opened Json
  import opened Comparison
  import opened Engine
  import opened Listen
  import opened Gathering
  import EngineLaws

  // ----- Filters -----

  function Extracted(key: Key, event: Event, view: View): Result<Value, Problem> {
    EVAL(key.from, if event.data.Some? then event.data.value else Null, view)
  }

  /** The value a key extracts equals its expectation, or without one what the group holds under the key. */
  predicate KeySuits(key: Key, event: Event, view: View, group: Group) {
    var got := Extracted(key, event, view);
    && got.Ok?
    && if key.expected.Some? then
         var want := EVAL(key.expected.value, view.context, view);
         want.Ok? && Equal(got.value, want.value)
       else key.from in group && Equal(got.value, group[key.from])
  }

  predicate Suits(filter: Filter, event: Event, view: View, group: Group) {
    ATTRIBUTES_MATCH(filter.attributes, event)
    && forall i | 0 <= i < |filter.correlate| :: KeySuits(filter.correlate[i], event, view, group)
  }

  /** What is new in the group is what keys without expectation extract. */
  ghost predicate Binds(keys: seq<Key>, event: Event, view: View, before: Group, now: Group) {
    forall k | k in now && k !in before ::
      exists i | 0 <= i < |keys| ::
        keys[i].expected.None? && keys[i].from == k && Extracted(keys[i], event, view) == Ok(now[k])
  }

  /** The event matches, and this is the group afterwards. */
  ghost predicate MatchesTo(filter: Filter, event: Event, view: View, before: Group, now: Group) {
    Extends(before, now) && Suits(filter, event, view, now) && Binds(filter.correlate, event, view, before, now)
  }

  /** No way of binding what the group leaves open makes the event suit. */
  ghost predicate Mismatches(filter: Filter, event: Event, view: View, group: Group) {
    forall now | Extends(group, now) :: !Suits(filter, event, view, now)
  }

  lemma {:induction false} OneGroupAfter(
    filter: Filter, event: Event, view: View, before: Group, now: Group, other: Group)
    requires MatchesTo(filter, event, view, before, now) && MatchesTo(filter, event, view, before, other)
    ensures now == other
  {
    BindsNothingElse(filter, event, view, before, now, other);
    BindsNothingElse(filter, event, view, before, other, now);
  }

  lemma {:induction false} BindsNothingElse(
    filter: Filter, event: Event, view: View, before: Group, now: Group, other: Group)
    requires MatchesTo(filter, event, view, before, now) && MatchesTo(filter, event, view, before, other)
    ensures forall k | k in now :: k in other && now[k] == other[k]
  {
    hide Equal;
    var keys := filter.correlate;
    forall k | k in now ensures k in other && now[k] == other[k] {
      if k !in before {
        var i :| 0 <= i < |keys| && keys[i].expected.None? && keys[i].from == k
                 && Extracted(keys[i], event, view) == Ok(now[k]);
        assert KeySuits(keys[i], event, view, other);
        var j :| 0 <= j < |keys| && keys[j].expected.None? && keys[j].from == k
                 && Extracted(keys[j], event, view) == Ok(other[k]);
      }
    }
  }

  /** A group that holds equal values wherever the other one is bound. */
  ghost predicate Agrees(group: Group, now: Group) {
    forall k | k in group :: k in now && Equal(group[k], now[k])
  }

  lemma {:induction false} KeyAgrees(key: Key, event: Event, view: View, group: Group, now: Group)
    requires Agrees(group, now) && KeySuits(key, event, view, now)
    ensures var r := Correlate(key, event, view, group); r.Some? && Agrees(r.value, now)
  {
    if key.expected.None? {
      var got := Extracted(key, event, view).value;
      if key.from in group {
        EqualSymmetric(group[key.from], now[key.from]);
        EqualTransitive(got, now[key.from], group[key.from]);
      }
    }
  }

  lemma {:induction false} KeysAgree(keys: seq<Key>, event: Event, view: View, group: Group, now: Group)
    requires Agrees(group, now) && forall i | 0 <= i < |keys| :: KeySuits(keys[i], event, view, now)
    ensures CorrelateAll(keys, event, view, group).Some?
    decreases |keys|
  {
    hide KeySuits, Correlate, Agrees;
    if keys != [] {
      assert KeySuits(keys[0], event, view, now);
      KeyAgrees(keys[0], event, view, group, now);
      forall i | 0 <= i < |keys[1..]| ensures KeySuits(keys[1..][i], event, view, now) {
        assert keys[1..][i] == keys[i + 1];
      }
      KeysAgree(keys[1..], event, view, Correlate(keys[0], event, view, group).value, now);
    }
  }

  lemma {:induction false} KeysBind(keys: seq<Key>, event: Event, view: View, group: Group)
    ensures var r := CorrelateAll(keys, event, view, group); r.Some? ==> Binds(keys, event, view, group, r.value)
    decreases |keys|
  {
    hide KeyFits, Equal;
    if keys != [] {
      var first, r := Correlate(keys[0], event, view, group), CorrelateAll(keys, event, view, group);
      if r.Some? {
        KeysBind(keys[1..], event, view, first.value);
        CorrelatedKeysFit(keys[1..], event, view, first.value);
        forall k | k in r.value && k !in group
          ensures exists i | 0 <= i < |keys| ::
                    keys[i].expected.None? && keys[i].from == k && Extracted(keys[i], event, view) == Ok(r.value[k])
        {
          if k in first.value {
            assert keys[0].expected.None? && keys[0].from == k && Extracted(keys[0], event, view) == Ok(r.value[k]);
          } else {
            var i :| 0 <= i < |keys[1..]| && keys[1..][i].expected.None? && keys[1..][i].from == k
                     && Extracted(keys[1..][i], event, view) == Ok(r.value[k]);
            assert keys[i + 1] == keys[1..][i];
          }
        }
      }
    }
  }

  /** A filter matches exactly when some group suits it, and binds exactly its open keys to what they extract. */
  lemma {:induction false} MatchMeans(filter: Filter, event: Event, view: View, group: Group)
    ensures var r := Match(filter, event, view, group);
            if r.Some? then MatchesTo(filter, event, view, group, r.value) else Mismatches(filter, event, view, group)
  {
    hide Equal, Correlate, CorrelateAll;
    MatchFits(filter, event, view, group);
    KeysBind(filter.correlate, event, view, group);
    if Match(filter, event, view, group).None? {
      forall now | Extends(group, now) ensures !Suits(filter, event, view, now) {
        if Suits(filter, event, view, now) {
          forall k | k in group ensures k in now && Equal(group[k], now[k]) {
            EqualReflexive(group[k]);
          }
          KeysAgree(filter.correlate, event, view, group, now);
        }
      }
    }
  }

  // ----- One event -----

  /** A filter that has matched before keeps its flag, and the group; any other is flagged exactly if it matches. */
  ghost predicate SweptAt(filter: Filter, was: bool, now: bool, event: Event, view: View, before: Group, after: Group) {
    if !was && now then MatchesTo(filter, event, view, before, after)
    else after == before && (was ==> now) && (!was ==> Mismatches(filter, event, view, before))
  }

  /** The event is offered to the filters in order, each with the group as the filters before it left it. */
  ghost predicate Sweeps(
    filters: seq<Filter>, flags: seq<bool>, from: nat, event: Event, view: View, groups: seq<Group>, now: seq<bool>)
  {
    && |groups| == |filters| + 1 && |now| == |flags| == |filters|
    && (forall i | 0 <= i < from && i < |filters| :: now[i] == flags[i])
    && forall i | from <= i < |filters| :: SweptAt(filters[i], flags[i], now[i], event, view, groups[i], groups[i + 1])
  }

  predicate Raised(flags: seq<bool>, now: seq<bool>)
    requires |now| == |flags|
  {
    exists i | 0 <= i < |flags| :: now[i] && !flags[i]
  }

  lemma {:induction false} SweepMeans(
    filters: seq<Filter>, flags: seq<bool>, from: nat, event: Event, view: View, group: Group) returns (groups: seq<Group>)
    requires from <= |filters| == |flags|
    ensures var r := Sweep(filters, flags, from, event, view, group);
            Sweeps(filters, flags, from, event, view, groups, r.flags)
            && groups[from] == group && groups[|filters|] == r.group && (r.advanced <==> Raised(flags, r.flags))
    decreases |filters| - from
  {
    hide Match, MatchesTo, Mismatches;
    var r := Sweep(filters, flags, from, event, view, group);
    if from == |filters| {
      groups := seq(|filters| + 1, _ => group);
    } else {
      MatchMeans(filters[from], event, view, group);
      var m := Match(filters[from], event, view, group);
      var raise := !flags[from] && m.Some?;
      var later := SweepMeans(
        filters, if raise then flags[from := true] else flags, from + 1, event, view, if raise then m.value else group);
      groups := later[from := group];
      SweepGrows(filters, flags, from, event, view, later, group, raise, r.flags);
    }
  }

  lemma {:induction false} SweepGrows(
    filters: seq<Filter>, flags: seq<bool>, from: nat, event: Event, view: View, later: seq<Group>, group: Group,
    raise: bool, now: seq<bool>)
    requires from < |filters| == |flags|
    requires Sweeps(filters, if raise then flags[from := true] else flags, from + 1, event, view, later, now)
    requires if raise then !flags[from] && MatchesTo(filters[from], event, view, group, later[from + 1])
             else later[from + 1] == group && (!flags[from] ==> Mismatches(filters[from], event, view, group))
    ensures Sweeps(filters, flags, from, event, view, later[from := group], now)
    ensures raise ==> Raised(flags, now)
  {
    hide MatchesTo, Mismatches;
    var mid, groups := if raise then flags[from := true] else flags, later[from := group];
    assert now[from] == mid[from] == (flags[from] || raise);
    assert groups[from] == group && groups[from + 1] == later[from + 1];
    assert SweptAt(filters[from], flags[from], now[from], event, view, group, later[from + 1]);
    forall i | 0 <= i < from ensures now[i] == flags[i] {
      assert now[i] == mid[i];
    }
    hide SweptAt;
    forall i | from < i < |filters|
      ensures SweptAt(filters[i], flags[i], now[i], event, view, groups[i], groups[i + 1])
    {
      assert mid[i] == flags[i] && groups[i] == later[i] && groups[i + 1] == later[i + 1];
      assert SweptAt(filters[i], mid[i], now[i], event, view, later[i], later[i + 1]);
    }
  }

  /** The array of what is read from the events. */
  predicate Reads(events: seq<Event>, read: string, v: Value) {
    v.Arr? && |v.items| == |events| && forall i | 0 <= i < |events| :: v.items[i] == READ(read, events[i])
  }

  /** An event offered to filters: the flags and groups that come of it. */
  datatype Offer = Offer(now: seq<bool>, groups: seq<Group>)

  ghost predicate Offered(filters: seq<Filter>, flags: seq<bool>, event: Event, view: View, group: Group, o: Offer) {
    Sweeps(filters, flags, 0, event, view, o.groups, o.now) && o.groups[0] == group
  }

  /** The event is what the strategy itself asks for; `one` changes nothing but what is consumed. */
  ghost predicate Strategy(setup: Setup, p: Progress, event: Event, o: Offer, accepted: bool, group: Group, now: seq<bool>) {
    if setup.need.One? then
      && group == p.group && now == p.satisfied
      && (accepted <==> setup.filters == [] || exists f | f in setup.filters :: !Mismatches(f, event, setup.view, p.group))
    else
      && Offered(setup.filters, p.satisfied, event, setup.view, p.group, o)
      && now == o.now && group == o.groups[|setup.filters|] && |now| == |p.satisfied|
      && (accepted <==> Raised(p.satisfied, now))
  }

  /** The state after an event, apart from the stop expression: it is consumed if the strategy or a stop filter takes it,
      and the stop filters are satisfied once the last of them has matched. */
  ghost predicate Takes(setup: Setup, p: Progress, event: Event, own: Offer, stop: Offer, q: Progress)
    requires WellFormed(setup, p)
  {
    exists accepted, group :: Strategy(setup, p, event, own, accepted, group, q.satisfied)
      && Offered(setup.untilFilters, p.untilState, event, setup.view, group, stop)
      && q.untilState == stop.now && q.group == stop.groups[|setup.untilFilters|]
      && var stopping := Raised(p.untilState, q.untilState);
         && q.consumed == (if accepted || stopping then p.consumed + [event] else p.consumed)
         && q.untilSatisfied == if stopping then forall i | 0 <= i < |q.untilState| :: q.untilState[i] else p.untilSatisfied
  }

  /** The stop expression sees everything consumed so far; once it holds the stop condition stays satisfied. */
  ghost predicate Judged(setup: Setup, p: Progress, r: Result<Progress, Problem>) {
    if setup.untilExpression.None? then r == Ok(p)
    else
      exists v :: Reads(p.consumed, setup.read, v)
        && (EngineLaws.Open(setup.untilExpression, v, setup.view) ==> r == Ok(p.(untilSatisfied := true)))
        && (EngineLaws.Shut(setup.untilExpression, v, setup.view) ==> r == Ok(p))
        && (forall e | EngineLaws.Breaks(setup.untilExpression, v, setup.view, e) :: r == Err(e))
  }

  lemma {:induction false} JudgedMeans(setup: Setup, p: Progress)
    ensures Judged(setup, p, UntilHolds(setup, p))
  {
    var v := ReadAll(p.consumed, setup.read);
    assert Reads(p.consumed, setup.read, v);
    if setup.untilExpression.Some? {
      var holds := Condition(setup.untilExpression.value, v, setup.view);
      EngineLaws.ConditionMeans(setup.untilExpression, v, setup.view, if holds.Err? then holds.error else Cancelled);
    }
  }

  lemma {:induction false} AnyMeans(filters: seq<Filter>, event: Event, view: View, group: Group)
    ensures AnyMatches(filters, event, view, group) <==> exists f | f in filters :: !Mismatches(f, event, view, group)
  {
    hide Match, Mismatches, Suits;
    forall i | 0 <= i < |filters|
      ensures Match(filters[i], event, view, group).Some? <==> !Mismatches(filters[i], event, view, group)
    {
      MatchMeans(filters[i], event, view, group);
      if Match(filters[i], event, view, group).Some? {
        MatchesSuit(filters[i], event, view, group, Match(filters[i], event, view, group).value);
      }
    }
  }

  lemma {:induction false} MatchesSuit(filter: Filter, event: Event, view: View, before: Group, now: Group)
    requires MatchesTo(filter, event, view, before, now)
    ensures !Mismatches(filter, event, view, before)
  {
  }

  lemma {:induction false} StrategyMeans(setup: Setup, p: Progress, event: Event) returns (o: Offer)
    requires WellFormed(setup, p)
    ensures var a := Accept(setup, p, event);
            && Strategy(setup, p, event, o, a.accepted, a.progress.group, a.progress.satisfied)
            && a.progress == p.(group := a.progress.group, satisfied := a.progress.satisfied,
                                consumed := if a.accepted then p.consumed + [event] else p.consumed)
  {
    hide Sweep, AnyMatches, Mismatches, Sweeps;
    var group := p.group;
    AnyMeans(setup.filters, event, setup.view, p.group);
    var groups := SweepMeans(setup.filters, p.satisfied, 0, event, setup.view, p.group);
    o := Offer(Sweep(setup.filters, p.satisfied, 0, event, setup.view, p.group).flags, groups);
    SweepSizes(setup.filters, p.satisfied, event, setup.view, groups, o.now);
  }

  lemma {:induction false} SweepSizes(
    filters: seq<Filter>, flags: seq<bool>, event: Event, view: View, groups: seq<Group>, now: seq<bool>)
    requires Sweeps(filters, flags, 0, event, view, groups, now)
    ensures |groups| == |filters| + 1 && |now| == |flags| == |filters|
    ensures filters == [] ==> now == flags
  {
  }

  /** What one event does. */
  lemma {:induction false} ReceiveMeans(setup: Setup, p: Progress, event: Event)
    returns (own: Offer, stop: Offer, q: Progress)
    requires WellFormed(setup, p)
    ensures Takes(setup, p, event, own, stop, q) && Judged(setup, q, Receive(setup, p, event))
  {
    hide Sweep, Accept, Strategy, Sweeps, UntilHolds, Judged;
    own := StrategyMeans(setup, p, event);
    var a := Accept(setup, p, event);
    var groups := SweepMeans(setup.untilFilters, p.untilState, 0, event, setup.view, a.progress.group);
    var r := Sweep(setup.untilFilters, p.untilState, 0, event, setup.view, a.progress.group);
    stop := Offer(r.flags, groups);
    SweepSizes(setup.untilFilters, p.untilState, event, setup.view, groups, r.flags);
    q := Until(setup, a.progress, a.accepted, event);
    JudgedMeans(setup, q);
    if setup.untilFilters == [] {
      NothingSwept(p.untilState, event, setup.view, a.progress.group);
    }
    assert Offered(setup.untilFilters, p.untilState, event, setup.view, a.progress.group, stop);
  }

  lemma {:induction false} NothingSwept(flags: seq<bool>, event: Event, view: View, group: Group)
    requires flags == []
    ensures Sweep([], flags, 0, event, view, group) == Swept(flags, group, false)
  {
  }

  // ----- The loop -----

  predicate HasStop(setup: Setup) {
    setup.untilExpression.Some? || setup.untilFilters != []
  }

  /** The strategy has what it asks for, and the stop condition, if any, has been satisfied. */
  predicate Stops(setup: Setup, p: Progress) {
    && (if setup.need.One? then p.consumed != [] || (HasStop(setup) && setup.filters == [])
        else forall i | 0 <= i < |p.satisfied| :: p.satisfied[i])
    && (HasStop(setup) ==> p.untilSatisfied)
  }

  ghost predicate Receives(setup: Setup, p: Progress, event: Event, r: Result<Progress, Problem>) {
    WellFormed(setup, p) && exists own, stop, q :: Takes(setup, p, event, own, stop, q) && Judged(setup, q, r)
  }

  /** The states of a listen, one per event: it receives until it may stop, the events run out, it is interrupted or its
      stop expression breaks. */
  ghost predicate Listens(setup: Setup, arrivals: seq<Arrival>, states: seq<Progress>, r: Result<Progress, Problem>) {
    && 0 < |states| <= |arrivals| + 1
    && (forall k | 0 <= k < |states| - 1 ::
          && !Stops(setup, states[k]) && arrivals[k].Arrived?
          && Receives(setup, states[k], arrivals[k].event, Ok(states[k + 1])))
    && var n := |states| - 1;
       if Stops(setup, states[n]) || n == |arrivals| then r == Ok(states[n])
       else if arrivals[n].Interrupted? then r == Err(Cancelled)
       else r.Err? && Receives(setup, states[n], arrivals[n].event, r)
  }

  lemma {:induction false} StopsMeans(setup: Setup, p: Progress)
    ensures Stops(setup, p) <==> Satisfied(setup, p)
  {
  }

  lemma {:induction false} ListensOn(
    setup: Setup, p: Progress, arrivals: seq<Arrival>, states: seq<Progress>, r: Result<Progress, Problem>)
    requires arrivals != [] && !Stops(setup, p) && arrivals[0].Arrived?
    requires states != [] && Receives(setup, p, arrivals[0].event, Ok(states[0]))
    requires Listens(setup, arrivals[1..], states, r)
    ensures Listens(setup, arrivals, [p] + states, r)
  {
    hide Stops, Receives;
    var all, tail := [p] + states, arrivals[1..];
    forall k | 0 <= k < |all| - 1
      ensures !Stops(setup, all[k]) && arrivals[k].Arrived? && Receives(setup, all[k], arrivals[k].event, Ok(all[k + 1]))
    {
      assert k > 0 ==> arrivals[k] == tail[k - 1] && all[k] == states[k - 1];
    }
    var n := |states| - 1;
    assert all[n + 1] == states[n] && (n < |tail| ==> arrivals[n + 1] == tail[n]);
  }

  /** Every listen is such a sequence of states, whatever the strategy and the stop condition. */
  lemma {:induction false} GatherListens(setup: Setup, p: Progress, arrivals: seq<Arrival>) returns (states: seq<Progress>)
    requires WellFormed(setup, p)
    ensures Listens(setup, arrivals, states, Gather(setup, p, arrivals)) && states[0] == p
    decreases |arrivals|
  {
    hide Satisfied, Receive, Takes, Judged, Stops, WellFormed;
    states := [p];
    StopsMeans(setup, p);
    if !Stops(setup, p) && arrivals != [] && arrivals[0].Arrived? {
      var event := arrivals[0].event;
      var own, stop, q := ReceiveMeans(setup, p, event);
      var next := Receive(setup, p, event);
      if next.Ok? {
        var later := GatherListens(setup, next.value, arrivals[1..]);
        ListensOn(setup, p, arrivals, later, Gather(setup, next.value, arrivals[1..]));
        states := [p] + later;
      }
    }
  }

  // ----- One event -----

  /** Some filter suits the event, under whatever values its keys have; without filters every event is wanted. */
  ghost predicate Wanted(setup: Setup, event: Event) {
    setup.filters == [] || exists f, now :: f in setup.filters && Suits(f, event, setup.view, now)
  }

  lemma {:induction false} WantedMeans(setup: Setup, event: Event)
    ensures Wanted(setup, event) <==> setup.filters == [] || AnyMatches(setup.filters, event, setup.view, map[])
  {
    hide Suits, AnyMatches;
    AnyMeans(setup.filters, event, setup.view, map[]);
    forall f | f in setup.filters
      ensures !Mismatches(f, event, setup.view, map[]) <==> exists now :: Suits(f, event, setup.view, now)
    {
      if now :| Suits(f, event, setup.view, now) {
        assert Extends(map[], now);
      }
    }
  }

  /** Without a stop condition a single-event listen yields the first wanted event, and nothing if none comes. */
  lemma {:induction false} FirstWanted(setup: Setup, arrivals: seq<Arrival>, n: nat)
    requires setup.need.One? && setup.untilExpression.None? && setup.untilFilters == [] && n <= |arrivals|
    requires forall k | 0 <= k < n :: arrivals[k].Arrived? && !Wanted(setup, arrivals[k].event)
    ensures var r := Gather(setup, Fresh(setup), arrivals);
            if n == |arrivals| then r.Ok? && r.value.consumed == []
            else if arrivals[n].Interrupted? then r == Err(Cancelled)
            else Wanted(setup, arrivals[n].event) ==> r.Ok? && r.value.consumed == [arrivals[n].event]
    decreases n
  {
    hide AnyMatches, Wanted;
    if arrivals != [] && arrivals[0].Arrived? {
      var event, tail := arrivals[0].event, arrivals[1..];
      WantedMeans(setup, event);
      if n > 0 {
        assert Receive(setup, Fresh(setup), event) == Ok(Fresh(setup));
        forall k | 0 <= k < n - 1 ensures tail[k].Arrived? && !Wanted(setup, tail[k].event) {
          assert tail[k] == arrivals[k + 1];
        }
        FirstWanted(setup, tail, n - 1);
      } else if Wanted(setup, event) {
        var q := Fresh(setup).(consumed := [] + [event]);
        assert Receive(setup, Fresh(setup), event) == Ok(q);
        assert Gather(setup, q, tail) == Ok(q);
      }
    }
  }

  /** The wanted ones among the events, in order. */
  ghost function Wants(setup: Setup, events: seq<Event>): seq<Event> {
    if events == [] then []
    else
      var init, last := events[..|events| - 1], events[|events| - 1];
      Wants(setup, init) + if Wanted(setup, last) then [last] else []
  }

  /** The stop expression holds of the wanted events. */
  ghost predicate Holds(setup: Setup, events: seq<Event>) {
    setup.untilExpression.Some?
    && exists v :: Reads(Wants(setup, events), setup.read, v) && EngineLaws.Open(setup.untilExpression, v, setup.view)
  }

  /** It held at some point. */
  ghost predicate HasHeld(setup: Setup, events: seq<Event>) {
    events != [] && (Holds(setup, events) || HasHeld(setup, events[..|events| - 1]))
  }

  /** A single-event listen may stop once a wanted event has come, or any stop will do, and its expression has held. */
  ghost predicate MayStop(setup: Setup, events: seq<Event>) {
    && (Wants(setup, events) != [] || (setup.filters == [] && setup.untilExpression.Some?))
    && (setup.untilExpression.Some? ==> HasHeld(setup, events))
  }

  /** The state of a single-event listen after these events. */
  ghost predicate After(setup: Setup, p: Progress, events: seq<Event>) {
    && WellFormed(setup, p) && p.consumed == Wants(setup, events) && p.group == map[]
    && (p.untilSatisfied <==> HasHeld(setup, events))
  }

  ghost predicate BreaksOn(setup: Setup, events: seq<Event>, e: Problem) {
    setup.untilExpression.Some?
    && exists v :: Reads(Wants(setup, events), setup.read, v) && EngineLaws.Breaks(setup.untilExpression, v, setup.view, e)
  }

  lemma {:induction false} ReadsOnce(events: seq<Event>, read: string, a: Value, b: Value)
    requires Reads(events, read, a) && Reads(events, read, b)
    ensures a == b
  {
    assert a.items == b.items;
  }

  lemma {:induction false} OneMoreWants(setup: Setup, events: seq<Event>, event: Event)
    ensures Wants(setup, events + [event]) == Wants(setup, events) + if Wanted(setup, event) then [event] else []
    ensures HasHeld(setup, events + [event]) <==> Holds(setup, events + [event]) || HasHeld(setup, events)
  {
    assert (events + [event])[..|events|] == events;
  }

  lemma {:induction false} OneReceives(setup: Setup, p: Progress, events: seq<Event>, event: Event)
    requires setup.need.One? && setup.untilFilters == [] && After(setup, p, events)
    ensures var r := Receive(setup, p, event);
            if r.Ok? then After(setup, r.value, events + [event]) else BreaksOn(setup, events + [event], r.error)
  {
    hide AnyMatches, Wanted, Wants, HasHeld, EngineLaws.Open, EngineLaws.Breaks, EngineLaws.Shut, Reads;
    WantedMeans(setup, event);
    OneMoreWants(setup, events, event);
    var q := p.(consumed := Wants(setup, events + [event]));
    assert p.consumed + [] == p.consumed;
    assert Until(setup, Accept(setup, p, event).progress, Accept(setup, p, event).accepted, event) == q;
    hide Accept, Until, UntilHolds;
    JudgedMeans(setup, q);
    JudgedHolds(setup, q, events + [event], Receive(setup, p, event));
  }

  lemma {:induction false} JudgedHolds(setup: Setup, q: Progress, events: seq<Event>, r: Result<Progress, Problem>)
    requires q.consumed == Wants(setup, events) && Judged(setup, q, r)
    ensures if r.Ok? then r.value == q.(untilSatisfied := q.untilSatisfied || Holds(setup, events))
            else BreaksOn(setup, events, r.error)
  {
    hide Wants, Reads;
    assert q.(untilSatisfied := q.untilSatisfied) == q;
    if setup.untilExpression.Some? {
      var v :| Reads(q.consumed, setup.read, v)
        && (EngineLaws.Open(setup.untilExpression, v, setup.view) ==> r == Ok(q.(untilSatisfied := true)))
        && (EngineLaws.Shut(setup.untilExpression, v, setup.view) ==> r == Ok(q))
        && (forall e | EngineLaws.Breaks(setup.untilExpression, v, setup.view, e) :: r == Err(e));
      forall u | Reads(q.consumed, setup.read, u) ensures u == v {
        ReadsOnce(q.consumed, setup.read, u, v);
      }
      var answer := EVAL(setup.untilExpression.value, v, setup.view);
      if answer.Err? {
        assert EngineLaws.Breaks(setup.untilExpression, v, setup.view, answer.error);
      }
    }
  }

  /** A single-event listen without stop filters consumes exactly the wanted events up to the first point at which it may
      stop, or up to the close; only an interruption or a breaking stop expression makes it fail. */
  lemma {:induction false} OneConsumes(setup: Setup, p: Progress, events: seq<Event>, arrivals: seq<Arrival>)
    returns (n: nat)
    requires setup.need.One? && setup.untilFilters == [] && After(setup, p, events)
    ensures n <= |arrivals| && forall k | 0 <= k < n :: arrivals[k].Arrived? && !MayStop(setup, events + Events(arrivals[..k]))
    ensures var r, now := Gather(setup, p, arrivals), events + Events(arrivals[..n]);
            if r.Ok? then r.value.consumed == Wants(setup, now) && (n == |arrivals| || MayStop(setup, now))
            else n < |arrivals| && !MayStop(setup, now)
                 && if arrivals[n].Interrupted? then r.error == Cancelled
                    else BreaksOn(setup, now + [arrivals[n].event], r.error)
    decreases |arrivals|
  {
    hide Wants, Holds, HasHeld, BreaksOn, Receive;
    n := 0;
    assert arrivals[..0] == [] && events + [] == events;
    assert Satisfied(setup, p) <==> MayStop(setup, events);
    if !MayStop(setup, events) && arrivals != [] && arrivals[0].Arrived? {
      var event, tail := arrivals[0].event, arrivals[1..];
      OneReceives(setup, p, events, event);
      var next := Receive(setup, p, event);
      if next.Ok? {
        hide MayStop, After;
        var m := OneConsumes(setup, next.value, events + [event], tail);
        n := m + 1;
        forall k: nat | k <= m ensures events + Events(arrivals[..k + 1]) == events + [event] + Events(tail[..k]) {
          assert arrivals[..k + 1][1..] == tail[..k] && arrivals[..k + 1][0] == arrivals[0];
        }
        forall k | 0 <= k < n ensures arrivals[k].Arrived? && !MayStop(setup, events + Events(arrivals[..k])) {
          if k > 0 {
            assert arrivals[k] == tail[k - 1];
            assert events + Events(arrivals[..(k - 1) + 1]) == events + [event] + Events(tail[..k - 1]);
          }
        }
      }
    }
  }

  lemma {:induction false} FreshIsAfterNothing(setup: Setup)
    ensures After(setup, Fresh(setup), [])
  {
  }

  /** Consumed events are wanted, and without filters all events are. */
  lemma {:induction false} WantedAreWanted(setup: Setup, events: seq<Event>)
    ensures forall e | e in Wants(setup, events) :: e in events && Wanted(setup, e)
    ensures setup.filters == [] ==> Wants(setup, events) == events
    decreases |events|
  {
    hide Wanted;
    if events != [] {
      var init, last := events[..|events| - 1], events[|events| - 1];
      WantedAreWanted(setup, init);
      assert events == init + [last];
      assert setup.filters == [] ==> Wanted(setup, last) by { AnyIsWanted(setup, last); }
    }
  }

  lemma {:induction false} AnyIsWanted(setup: Setup, event: Event)
    ensures setup.filters == [] ==> Wanted(setup, event)
  {
  }
}
