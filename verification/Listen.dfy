/** Gathering events for a `listen` task: strategies, correlation across events, and stop conditions. */
module Listen {
  import opened Wrappers
  import opened Json
  import opened Comparison
  import opened Workflows
  import opened Engine

  datatype Event = Event(id: string, data: Option<Value>)

  // Attribute matching and the part of an event that is read stay open.
  const ATTRIBUTES_MATCH: (string, Event) -> bool
  const READ: (string, Event) -> Value

  datatype Key = Key(from: Source, expected: Option<Source>)

  datatype Filter = Filter(attributes: string, correlate: seq<Key>)

  datatype Need = One | All

  datatype Setup = Setup(
    filters: seq<Filter>, need: Need, untilExpression: Option<Source>, untilFilters: seq<Filter>, read: string,
    view: View)
  {
    predicate HasUntil() {
      untilExpression.Some? || untilFilters != []
    }
  }

  /** The first-seen value of each correlation key. */
  type Group = map<Source, Value>

  // ----- One filter -----

  function Got(key: Key, event: Event, view: View): Result<Value, Problem> {
    EVAL(key.from, if event.data.Some? then event.data.value else Null, view)
  }

  /** A key of an event agrees with its expectation, or else with the group. */
  predicate KeyFits(key: Key, event: Event, view: View, group: Group) {
    var got := Got(key, event, view);
    && got.Ok?
    && match key.expected
       case Some(expected) =>
         var want := EVAL(expected, view.context, view);
         want.Ok? && Equal(got.value, want.value)
       case None => key.from in group && Equal(got.value, group[key.from])
  }

  /** The group after a key, unless the key contradicts it. */
  function Correlate(key: Key, event: Event, view: View, group: Group): (r: Option<Group>)
    ensures r.Some? ==> Extends(group, r.value) && KeyFits(key, event, view, r.value)
    ensures r.None? ==> !KeyFits(key, event, view, group)
    ensures key.expected.None? && key.from !in group && r.None? ==> Got(key, event, view).Err?
  {
    var got := Got(key, event, view);
    if got.Err? then None
    else if key.expected.None? && key.from !in group then
      EqualReflexive(got.value);
      Some(group[key.from := got.value])
    else if KeyFits(key, event, view, group) then Some(group)
    else None
  }

  /** Nothing bound is bound anew. */
  ghost predicate Extends(before: Group, now: Group) {
    forall k | k in before :: k in now && now[k] == before[k]
  }

  function CorrelateAll(keys: seq<Key>, event: Event, view: View, group: Group): Option<Group> {
    if keys == [] then Some(group)
    else
      match Correlate(keys[0], event, view, group)
      case None => None
      case Some(next) => CorrelateAll(keys[1..], event, view, next)
  }

  /** The group after an event that matches the filter. */
  function Match(filter: Filter, event: Event, view: View, group: Group): Option<Group> {
    if ATTRIBUTES_MATCH(filter.attributes, event) then CorrelateAll(filter.correlate, event, view, group) else None
  }

  /** The event satisfies the filter against a group in which all its keys are bound. */
  ghost predicate Fits(filter: Filter, event: Event, view: View, group: Group) {
    ATTRIBUTES_MATCH(filter.attributes, event)
    && forall i | 0 <= i < |filter.correlate| :: KeyFits(filter.correlate[i], event, view, group)
  }

  lemma KeyStillFits(key: Key, event: Event, view: View, before: Group, now: Group)
    requires Extends(before, now) && KeyFits(key, event, view, before)
    ensures KeyFits(key, event, view, now)
  {
  }

  lemma StillFits(filter: Filter, event: Event, view: View, before: Group, now: Group)
    requires Extends(before, now) && Fits(filter, event, view, before)
    ensures Fits(filter, event, view, now)
  {
    hide KeyFits;
    forall i | 0 <= i < |filter.correlate| ensures KeyFits(filter.correlate[i], event, view, now) {
      KeyStillFits(filter.correlate[i], event, view, before, now);
    }
  }

  lemma {:induction false} CorrelatedKeysFit(keys: seq<Key>, event: Event, view: View, group: Group)
    ensures match CorrelateAll(keys, event, view, group)
            case Some(now) => Extends(group, now) && forall i | 0 <= i < |keys| :: KeyFits(keys[i], event, view, now)
            case None => true
    decreases |keys|
  {
    hide KeyFits, Correlate;
    if keys != [] {
      var first := Correlate(keys[0], event, view, group);
      var last := CorrelateAll(keys, event, view, group);
      if first.Some? && last.Some? {
        CorrelatedKeysFit(keys[1..], event, view, first.value);
        KeyStillFits(keys[0], event, view, first.value, last.value);
        forall i | 0 <= i < |keys| ensures KeyFits(keys[i], event, view, last.value) {
          assert i > 0 ==> keys[i] == keys[1..][i - 1];
        }
      }
    }
  }

  /** A match binds every key of the filter and rebinds none. */
  lemma MatchFits(filter: Filter, event: Event, view: View, group: Group)
    ensures match Match(filter, event, view, group)
            case Some(now) => Extends(group, now) && Fits(filter, event, view, now)
            case None => true
  {
    hide KeyFits, Correlate, CorrelateAll;
    CorrelatedKeysFit(filter.correlate, event, view, group);
  }

  /** Events that match under the same key without an expectation extract equal values. */
  lemma CorrelatedValuesAgree(
    f: Filter, g: Filter, a: Event, b: Event, i: nat, j: nat, view: View, group: Group)
    requires Fits(f, a, view, group) && Fits(g, b, view, group)
    requires i < |f.correlate| && j < |g.correlate| && f.correlate[i].from == g.correlate[j].from
    requires f.correlate[i].expected.None? && g.correlate[j].expected.None?
    ensures var x, y := Got(f.correlate[i], a, view), Got(g.correlate[j], b, view);
            x.Ok? && y.Ok? && Equal(x.value, y.value)
  {
    assert KeyFits(f.correlate[i], a, view, group) && KeyFits(g.correlate[j], b, view, group);
    var from := f.correlate[i].from;
    var x, y := Got(f.correlate[i], a, view).value, Got(g.correlate[j], b, view).value;
    EqualSymmetric(y, group[from]);
    EqualTransitive(x, group[from], y);
  }

  /** Commits the group only when the whole filter matches. */
  method FilterMatches(filter: Filter, event: Event, view: View, group: Group) returns (matched: bool, now: Group)
    ensures match Match(filter, event, view, group)
            case Some(after) => matched && now == after
            case None => !matched && now == group
  {
    now := group;
    if !ATTRIBUTES_MATCH(filter.attributes, event) {
      return false, group;
    }
    var trial := group;
    var keys := filter.correlate;
    assert keys[0..] == keys;
    for i := 0 to |keys|
      invariant CorrelateAll(keys, event, view, group) == CorrelateAll(keys[i..], event, view, trial)
    {
      assert keys[i..][1..] == keys[i + 1..];
      var got := Got(keys[i], event, view);
      if got.Err? {
        return false, group;
      }
      if keys[i].expected.Some? {
        var want := EVAL(keys[i].expected.value, view.context, view);
        if want.Err? || !Equal(got.value, want.value) {
          return false, group;
        }
      } else if keys[i].from in trial {
        if !Equal(got.value, trial[keys[i].from]) {
          return false, group;
        }
      } else {
        trial := trial[keys[i].from := got.value];
      }
    }
    return true, trial;
  }
}
