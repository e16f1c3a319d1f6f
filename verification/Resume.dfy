/** Durable execution: checkpoints after every top-level task, crashes before and after every store write, and resumption. */
module Resume {
  import opened Wrappers
  import opened Json
  import opened Workflows
  import opened Engine
  import opened Stores

  // ----- Runs of steps -----

  // A top-level task as a function of its input and the workflow context: what it produces and the context it leaves.
  // Nothing else survives a crash, so nothing else may matter; in particular no step fires `end` in a nested scope.
  datatype Step = Step(outcome: Result<TaskOut, Fault>, context: Value)

  const STEP: (Task, Value, Value) -> Step
  const INPUT: Value -> Result<Value, Fault>
  const OUTPUT: (Value, Value) -> Result<Value, Fault>

  /** Where a run stands between two steps. */
  datatype Config = Config(index: nat, input: Value, context: Value)

  datatype Next = At(config: Config) | Over(result: Result<Value, Fault>, context: Value)

  function Advance(tasks: seq<Task>, c: Config): (next: Next)
    ensures c.index <= |tasks| && next.At? ==> next.config.index <= |tasks|
  {
    if c.index >= |tasks| then Over(Ok(c.input), c.context)
    else
      var step := STEP(tasks[c.index], c.input, c.context);
      match step.outcome
      case Err(fault) => Over(Err(fault), step.context)
      case Ok(out) =>
        match Follow(tasks, c.index, Directive(tasks[c.index], out.directive))
        case Go(index) => At(Config(index, out.output, step.context))
        case Leave => Over(Ok(out.output), step.context)
        case Finish => Over(Ok(out.output), step.context)
        case Lost(name) => Over(Err(UnknownTarget(name)), step.context)
  }

  /** What n steps without interruption lead to. */
  function After(tasks: seq<Task>, n: nat, c: Config): Next {
    if n == 0 then At(c)
    else
      match Advance(tasks, c)
      case At(next) => After(tasks, n - 1, next)
      case Over(result, context) => Over(result, context)
  }

  lemma {:induction false} AfterAfter(tasks: seq<Task>, m: nat, n: nat, c: Config)
    ensures match After(tasks, m, c)
            case At(middle) => After(tasks, m + n, c) == After(tasks, n, middle)
            case Over(result, context) => After(tasks, m + n, c) == Over(result, context)
    decreases m
  {
    hide Advance;
    if m > 0 && Advance(tasks, c).At? {
      AfterAfter(tasks, m - 1, n, Advance(tasks, c).config);
    }
  }

  /** A run is over in one way only, however many steps are allowed. */
  lemma OverOnce(tasks: seq<Task>, m: nat, n: nat, c: Config)
    requires After(tasks, m, c).Over? && After(tasks, n, c).Over?
    ensures After(tasks, m, c) == After(tasks, n, c)
  {
    if m <= n {
      AfterAfter(tasks, m, n - m, c);
    } else {
      AfterAfter(tasks, n, m - n, c);
    }
  }

  lemma {:induction false} IndexStaysInRange(tasks: seq<Task>, n: nat, c: Config)
    requires c.index <= |tasks|
    ensures After(tasks, n, c).At? ==> After(tasks, n, c).config.index <= |tasks|
    decreases n
  {
    hide Advance;
    if n > 0 && Advance(tasks, c).At? {
      IndexStaysInRange(tasks, n - 1, Advance(tasks, c).config);
    }
  }

  type Answer = Result<Value, Fault>

  function AnswerOf(result: Answer, context: Value): Answer {
    if result.Ok? then OUTPUT(result.value, context) else result
  }

  // ----- Checkpoints -----

  function PointerTo(c: Config): Value {
    Obj(map["next" := Num(Int(c.index)), "input" := c.input])
  }

  /** Reading a pointer back; missing parts default to the start and to the context. */
  function Restored(record: Record): Config {
    var fields := if record.pointer.Obj? then record.pointer.fields else map[];
    var next := if "next" in fields && fields["next"].Num? && fields["next"].n.Int? && fields["next"].n.i >= 0
                then fields["next"].n.i else 0;
    Config(next, if "input" in fields then fields["input"] else record.context, record.context)
  }

  function Checkpoint(id: string, workflow: string, c: Config): Record {
    Record(id, workflow, Running, c.context, PointerTo(c), None)
  }

  lemma CheckpointRestores(id: string, workflow: string, c: Config)
    ensures Restored(Checkpoint(id, workflow, c)) == c
  {
  }

  function TerminalPhase(answer: Answer): (phase: Phase)
    ensures phase.Terminal()
  {
    match answer
    case Ok(_) => Completed
    case Err(fault) => if fault == Raised(Problem.Cancelled) then Phase.Cancelled else Phase.Faulted
  }

  function Closing(id: string, workflow: string, answer: Answer, context: Value): Record {
    Record(id, workflow, TerminalPhase(answer), context, Null, if answer.Err? then Some(FAULT_VALUE(answer.error)) else None)
  }

  function TerminalEvent(phase: Phase): string {
    match phase
    case Completed => "workflow.completed"
    case Cancelled => "workflow.cancelled"
    case _ => "workflow.faulted"
  }

  function StartEvent(id: string): Event {
    Event(id, 1, "workflow.started")
  }

  function EndEvent(id: string, phase: Phase): Event {
    Event(id, 2, TerminalEvent(phase))
  }

  /** The events one execution may leave, each at most once and in this order. */
  function Log(id: string, started: bool, ended: Option<Phase>): seq<Event> {
    (if started then [StartEvent(id)] else []) + (if ended.Some? then [EndEvent(id, ended.value)] else [])
  }

  /** A registered definition and its key. */
  datatype Definition = Definition(key: string, tasks: seq<Task>)

  /** The record of a live execution restores to c. */
  ghost predicate Stands(records: map<string, Record>, id: string, w: Definition, c: Config) {
    id in records && records[id].id == id && records[id].workflow == w.key && !records[id].phase.Terminal()
    && Restored(records[id]) == c
  }

  /** The record of an execution that started at c0 holds a checkpoint some uninterrupted steps later. */
  ghost predicate Holds(records: map<string, Record>, id: string, w: Definition, c0: Config, steps: nat) {
    var next := After(w.tasks, steps, c0);
    next.At? && Stands(records, id, w, next.config)
  }

  /** The record is closed with what the uninterrupted run answers. */
  ghost predicate Closed(records: map<string, Record>, id: string, w: Definition, c0: Config, steps: nat, answer: Answer) {
    var next := After(w.tasks, steps, c0);
    && next.Over? && answer == AnswerOf(next.result, next.context)
    && id in records && records[id] == Closing(id, w.key, answer, next.context)
  }

  /** The record is closed, whether or not anyone was told the answer. */
  ghost predicate Settled(records: map<string, Record>, id: string, w: Definition, c0: Config, steps: nat) {
    var next := After(w.tasks, steps, c0);
    next.Over? && Closed(records, id, w, c0, steps, AnswerOf(next.result, next.context))
  }

  lemma ClosedIsSettled(records: map<string, Record>, id: string, w: Definition, c0: Config, steps: nat, answer: Answer)
    requires Closed(records, id, w, c0, steps, answer)
    ensures Settled(records, id, w, c0, steps)
  {
    hide After;
  }

  lemma SettledIsTerminal(records: map<string, Record>, id: string, w: Definition, c0: Config, steps: nat)
    requires Settled(records, id, w, c0, steps)
    ensures id in records && records[id].phase.Terminal()
  {
    hide After;
  }

  // ----- Executing -----

  class Runtime {
    const store: Store
    var workflows: map<string, Definition>

    /** Records and definitions are filed under their own names. */
    ghost predicate Valid()
      reads this, store
    {
      && (forall id | id in store.records :: store.records[id].id == id)
      && (forall key | key in workflows :: workflows[key].key == key)
    }

    constructor (store: Store)
      requires store.records == map[]
      ensures Valid() && this.store == store && workflows == map[]
    {
      this.store := store;
      workflows := map[];
    }

    ghost predicate Registered(w: Definition)
      reads this
    {
      w.key in workflows && workflows[w.key] == w
    }

    /** Runs the top-level scope from c. The crash happens after the given number of moments and returns nothing. */
    method ExecScope(w: Definition, id: string, c: Config, crash: nat)
      returns (over: Option<(Answer, Value)>, left: nat, ghost steps: nat)
      requires Stands(store.records, id, w, c)
      requires Valid()
      modifies store
      ensures Valid()
      ensures OnlyChanged(old(store.records), store.records, id) && store.events == old(store.events)
      ensures over.None? ==> Holds(store.records, id, w, c, steps)
      ensures over.Some? ==>
                steps > 0 && After(w.tasks, steps, c) == Over(over.value.0, over.value.1)
                && Holds(store.records, id, w, c, steps - 1)
    {
      hide Advance;
      var config := c;
      left, steps := crash, 0;
      while true
        invariant After(w.tasks, steps, c) == At(config)
        invariant Valid() && Stands(store.records, id, w, config)
        invariant OnlyChanged(old(store.records), store.records, id) && store.events == old(store.events)
        decreases left
      {
        if left == 0 {
          over := None;
          return;
        }
        left := left - 1;
        var next := Advance(w.tasks, config);
        AfterAfter(w.tasks, steps, 1, c);
        OneStep(w.tasks, config);
        if next.Over? {
          steps := steps + 1;
          over := Some((next.result, next.context));
          return;
        }
        if left == 0 {
          over := None;
          return;
        }
        steps := steps + 1;
        config := next.config;
        store.Update(Checkpoint(id, w.key, config));
        CheckpointRestores(id, w.key, config);
      }
    }

    /**
     * Runs to the end or the crash, and closes the record at the end. A crash after that write loses the answer:
     * the record is closed, and nobody has been told.
     */
    method Execute(w: Definition, id: string, c: Config, crash: nat)
      returns (r: Option<Answer>, ghost steps: nat, ghost ended: bool)
      requires Stands(store.records, id, w, c)
      requires Valid()
      modifies store
      ensures Valid()
      ensures OnlyChanged(old(store.records), store.records, id)
      ensures r.None? ==> Holds(store.records, id, w, c, steps) || Settled(store.records, id, w, c, steps)
      ensures r.Some? ==> Closed(store.records, id, w, c, steps, r.value) && ended
      ensures ended ==> Settled(store.records, id, w, c, steps)
      ensures store.events == old(store.events) + if ended then [EndEvent(id, store.records[id].phase)] else []
    {
      hide After, OnlyChanged, Closing;
      var over, left;
      ghost var taken;
      ended := false;
      over, left, taken := ExecScope(w, id, c, crash);
      steps := taken;
      if over.None? {
        return None, steps, false;
      }
      var (result, context) := over.value;
      var answer := AnswerOf(result, context);
      if left == 0 {
        return None, steps - 1, false;
      }
      ghost var before := store.records;
      store.Update(Closing(id, w.key, answer, context));
      WriteChangesOne(old(store.records), before, id, Closing(id, w.key, answer, context));
      ClosingKeepsId(id, w.key, answer, context);
      ClosedIsSettled(store.records, id, w, c, steps, answer);
      if left == 1 {
        return None, steps, false;
      }
      store.AppendEvent(EndEvent(id, TerminalPhase(answer)));
      ended := true;
      r := if left == 2 then None else Some(answer);
    }

    /** A fresh run: the input stage, the start record, then the tasks. */
    method Start(w: Definition, id: string, rawInput: Value, crash: nat)
      returns (r: Option<Answer>, ghost steps: nat, ghost started: bool, ghost ended: bool)
      requires Valid()
      modifies store
      ensures Valid()
      ensures OnlyChanged(old(store.records), store.records, id)
      ensures INPUT(rawInput).Err? ==> r == Some(INPUT(rawInput)) && store.records == old(store.records)
      ensures INPUT(rawInput).Ok? && r.None? ==>
                || store.records == old(store.records)
                || Holds(store.records, id, w, Entry(rawInput), steps)
                || Settled(store.records, id, w, Entry(rawInput), steps)
      ensures INPUT(rawInput).Ok? && r.Some? ==>
                started && ended && Closed(store.records, id, w, Entry(rawInput), steps, r.value)
      ensures started ==> INPUT(rawInput).Ok? && id in store.records
      ensures ended ==> started && Settled(store.records, id, w, Entry(rawInput), steps)
      ensures store.events ==
              old(store.events) + Log(id, started, if ended then Some(store.records[id].phase) else None)
    {
      hide After, OnlyChanged, Closed, Settled, Restored;
      steps, started, ended := 0, false, false;
      Unchanged(store.records, id);
      var transformed := INPUT(rawInput);
      if transformed.Err? {
        return Some(transformed), 0, false, false;
      }
      if crash == 0 {
        return None, 0, false, false;
      }
      var c := Entry(rawInput);
      store.Create(Checkpoint(id, w.key, c));
      WriteChangesOne(old(store.records), old(store.records), id, Checkpoint(id, w.key, c));
      CheckpointRestores(id, w.key, c);
      NoSteps(w.tasks, c);
      if crash == 1 {
        return None, 0, false, false;
      }
      ghost var middle := store.records;
      store.AppendEvent(StartEvent(id));
      started := true;
      r, steps, ended := Execute(w, id, c, crash - 2);
      ChangesAddUp(old(store.records), middle, store.records, id);
      RecordStays(store.records, id, w, c, steps);
      if r.Some? {
        ClosedIsSettled(store.records, id, w, c, steps, r.value);
      }
    }

    /** Continues an execution from its record. Whatever run wrote that record, however many steps from its start, the
        continuation closes it with the answer of the run that was never interrupted, or leaves a later checkpoint.
        A closed record is refused, even if its answer never got out. */
    method Resume(id: string, crash: nat, ghost start: Config, ghost done: nat)
      returns (r: Resumption, ghost steps: nat, ghost ended: bool)
      requires Valid()
      modifies store
      ensures Valid()
      ensures OnlyChanged(old(store.records), store.records, id)
      ensures r.Refused? ==> store.records == old(store.records) && !ended
      ensures r == Refused(UnknownExecution) <==> id !in old(store.records)
      ensures r == Refused(AlreadyTerminal) <==> id in old(store.records) && old(store.records)[id].phase.Terminal()
      ensures forall w | Registered(w) && Holds(old(store.records), id, w, start, done) ::
                && r.Ran?
                && (if r.answer.Some? then ended && Closed(store.records, id, w, start, done + steps, r.answer.value)
                    else || Holds(store.records, id, w, start, done + steps)
                         || Settled(store.records, id, w, start, done + steps))
                && (ended ==> Settled(store.records, id, w, start, done + steps))
      ensures forall w | Settled(old(store.records), id, w, start, done) :: r == Refused(AlreadyTerminal)
      ensures ended ==> id in store.records && store.records[id].phase.Terminal()
      ensures store.events == old(store.events) + if ended then [EndEvent(id, store.records[id].phase)] else []
    {
      hide After, OnlyChanged, Closed, Settled, Restored;
      steps, ended := 0, false;
      Unchanged(store.records, id);
      forall w | Settled(store.records, id, w, start, done)
        ensures id in store.records && store.records[id].phase.Terminal()
      {
        SettledIsTerminal(store.records, id, w, start, done);
      }
      var loaded := store.Load(id);
      if loaded.None? {
        return Refused(UnknownExecution), 0, false;
      }
      var record := loaded.value;
      if record.phase.Terminal() {
        return Refused(AlreadyTerminal), 0, false;
      }
      if record.workflow !in workflows {
        return Refused(NotRegistered), 0, false;
      }
      var w := workflows[record.workflow];
      var c := Restored(record);
      var answer;
      answer, steps, ended := Execute(w, id, c, crash);
      r := Ran(answer);
      if ended {
        SettledIsTerminal(store.records, id, w, c, steps);
      }
      if Holds(old(store.records), id, w, start, done) {
        GoneOn(store.records, id, w, start, done, c, steps);
      }
    }

    /** Runs an execution through any number of crashes, resuming after each one. */
    method RunThroughCrashes(w: Definition, id: string, rawInput: Value, crashes: seq<nat>)
      returns (r: Option<Answer>, ghost steps: nat, ghost started: bool, ghost ended: bool)
      requires Registered(w) && id !in store.records
      requires Valid()
      modifies store
      ensures Valid()
      ensures r.Some? && INPUT(rawInput).Err? ==> r == Some(INPUT(rawInput))
      ensures r.Some? && INPUT(rawInput).Ok? ==> ended && Closed(store.records, id, w, Entry(rawInput), steps, r.value)
      ensures r.None? && id in store.records ==>
                || Holds(store.records, id, w, Entry(rawInput), steps)
                || Settled(store.records, id, w, Entry(rawInput), steps)
      ensures started || ended ==> id in store.records
      ensures ended ==> Settled(store.records, id, w, Entry(rawInput), steps)
      ensures store.events ==
              old(store.events) + Log(id, started, if ended then Some(store.records[id].phase) else None)
    {
      hide After, OnlyChanged, Closed, Settled, Holds;
      r, steps, started, ended := None, 0, false, false;
      var c := Entry(rawInput);
      for i := 0 to |crashes|
        invariant Valid() && r.None? && (started || ended ==> id in store.records)
        invariant id in store.records ==>
                    INPUT(rawInput).Ok? && (Holds(store.records, id, w, c, steps) || Settled(store.records, id, w, c, steps))
        invariant ended ==> Settled(store.records, id, w, c, steps)
        invariant store.events ==
                  old(store.events) + Log(id, started, if ended then Some(store.records[id].phase) else None)
      {
        if id in store.records {
          ghost var more, ending;
          var resumed;
          resumed, more, ending := Resume(id, crashes[i], c, steps);
          if resumed.Ran? {
            steps := steps + more;
            ended := ending;
            r := resumed.answer;
            RecordStays(store.records, id, w, c, steps);
          }
        } else {
          r, steps, started, ended := Start(w, id, rawInput, crashes[i]);
        }
        if r.Some? {
          return;
        }
      }
    }
  }

  /** The configuration a fresh run starts from. */
  function Entry(rawInput: Value): Config {
    var input := INPUT(rawInput);
    if input.Ok? then Config(0, input.value, input.value) else Config(0, Null, Null)
  }

  datatype Reason = UnknownExecution | AlreadyTerminal | NotRegistered

  datatype Resumption = Refused(reason: Reason) | Ran(answer: Option<Answer>)

  /** The records of all other executions are as they were. */
  ghost predicate OnlyChanged(before: map<string, Record>, now: map<string, Record>, id: string) {
    forall other | other != id ::
      (other in before <==> other in now) && (other in before && other in now ==> before[other] == now[other])
  }

  lemma Unchanged(records: map<string, Record>, id: string)
    ensures OnlyChanged(records, records, id)
  {
  }

  lemma WriteChangesOne(before: map<string, Record>, now: map<string, Record>, id: string, record: Record)
    requires OnlyChanged(before, now, id)
    ensures OnlyChanged(before, now[id := record], id)
  {
  }

  lemma ChangesAddUp(before: map<string, Record>, middle: map<string, Record>, now: map<string, Record>, id: string)
    requires OnlyChanged(before, middle, id) && OnlyChanged(middle, now, id)
    ensures OnlyChanged(before, now, id)
  {
  }

  lemma ClosingKeepsId(id: string, workflow: string, answer: Answer, context: Value)
    ensures var record := Closing(id, workflow, answer, context);
            record.id == id && record.phase == TerminalPhase(answer)
  {
  }

  lemma NoSteps(tasks: seq<Task>, c: Config)
    ensures After(tasks, 0, c) == At(c)
  {
  }

  lemma RecordStays(records: map<string, Record>, id: string, w: Definition, c0: Config, steps: nat)
    ensures Holds(records, id, w, c0, steps) ==> id in records && !records[id].phase.Terminal()
    ensures Settled(records, id, w, c0, steps) ==> id in records && records[id].phase.Terminal()
  {
    hide After;
  }

  /** What holds some steps after a checkpoint holds that many more steps after the start. */
  lemma GoneOn(records: map<string, Record>, id: string, w: Definition, start: Config, done: nat, c: Config, steps: nat)
    requires After(w.tasks, done, start) == At(c)
    ensures Holds(records, id, w, c, steps) ==> Holds(records, id, w, start, done + steps)
    ensures Settled(records, id, w, c, steps) ==> Settled(records, id, w, start, done + steps)
    ensures forall answer :: Closed(records, id, w, c, steps, answer) ==> Closed(records, id, w, start, done + steps, answer)
  {
    AfterAfter(w.tasks, done, steps, start);
    hide After, Closing, AnswerOf, Stands;
  }

  lemma OneStep(tasks: seq<Task>, c: Config)
    ensures After(tasks, 1, c) == Advance(tasks, c)
  {
    hide Advance;
    if Advance(tasks, c).At? {
      assert After(tasks, 0, Advance(tasks, c).config) == Advance(tasks, c);
    }
  }

  // ----- What that means -----

  /** Crashes cannot change the answer: a record closed after any of them agrees with every uninterrupted run. */
  lemma CrashesDoNotMatter(
    records: map<string, Record>, id: string, w: Definition, c0: Config, steps: nat, answer: Answer, n: nat)
    requires Closed(records, id, w, c0, steps, answer) && After(w.tasks, n, c0).Over?
    ensures var whole := After(w.tasks, n, c0);
            answer == AnswerOf(whole.result, whole.context) && records[id].context == whole.context
            && records[id].phase == TerminalPhase(answer)
  {
    OverOnce(w.tasks, steps, n, c0);
  }

  /** A stored checkpoint never points past the last task. */
  lemma StoredIndexInRange(records: map<string, Record>, id: string, w: Definition, rawInput: Value, steps: nat)
    requires Holds(records, id, w, Entry(rawInput), steps)
    ensures Restored(records[id]).index <= |w.tasks|
  {
    IndexStaysInRange(w.tasks, steps, Entry(rawInput));
  }

  /** An answer that was lost stays lost: the closed record is the same whatever the output was. */
  lemma OutputIsNotStored(records: map<string, Record>, id: string, w: Definition, c0: Config, steps: nat, other: Value)
    requires Settled(records, id, w, c0, steps) && records[id].phase.Completed?
    ensures records[id] == Closing(id, w.key, Ok(other), records[id].context)
  {
    hide After;
  }

  // ----- What a closed record and its events say -----

  /** The record of a finished execution says how it ended: completed exactly with a value, cancelled exactly when the
      run was, faulted with every other fault; the fault is kept, and nothing to resume from. */
  predicate Tells(record: Record, answer: Answer) {
    && (record.phase == Completed <==> answer.Ok?)
    && (record.phase == Phase.Cancelled <==> answer == Err(Raised(Problem.Cancelled)))
    && (record.phase == Phase.Faulted <==> answer.Err? && answer.error != Raised(Problem.Cancelled))
    && record.error == (if answer.Ok? then None else Some(FAULT_VALUE(answer.error)))
    && record.pointer == Null
  }

  /** What the second event of an execution is called. */
  predicate Announces(event: Event, id: string, answer: Answer) {
    && event.id == id && event.sequence == 2
    && (event.kind == "workflow.completed" <==> answer.Ok?)
    && (event.kind == "workflow.cancelled" <==> answer == Err(Raised(Problem.Cancelled)))
    && (event.kind == "workflow.faulted" <==> answer.Err? && answer.error != Raised(Problem.Cancelled))
  }

  /** The answer of a run whose tasks completed is what the output stage makes of the last value; a fault is kept. */
  predicate Answers(result: Answer, context: Value, answer: Answer) {
    if result.Ok? then answer == OUTPUT(result.value, context) else answer == result
  }

  lemma {:induction false} ClosedTells(
    records: map<string, Record>, id: string, w: Definition, c0: Config, steps: nat, answer: Answer)
    requires Closed(records, id, w, c0, steps, answer)
    ensures id in records && records[id].id == id && records[id].workflow == w.key && Tells(records[id], answer)
    ensures After(w.tasks, steps, c0).Over? && records[id].context == After(w.tasks, steps, c0).context
    ensures Answers(After(w.tasks, steps, c0).result, After(w.tasks, steps, c0).context, answer)
    ensures Announces(EndEvent(id, records[id].phase), id, answer)
  {
    hide After;
  }

  /** Only three phases end an execution; a record in any other can be resumed. */
  lemma {:induction false} PhasesThatEnd(phase: Phase)
    ensures phase.Terminal() <==> phase in {Phase.Cancelled, Phase.Faulted, Completed}
  {
  }

  /** The start is logged as the first event, before anything else. */
  lemma {:induction false} StartIsFirst(id: string, started: bool, ended: Option<Phase>)
    ensures var log := Log(id, started, ended);
            && (started ==> log != [] && log[0] == Event(id, 1, "workflow.started"))
            && (started && ended.Some? ==> |log| == 2 && log[1].sequence == 2)
            && |log| == (if started then 1 else 0) + if ended.Some? then 1 else 0
  {
  }

  /** A record that was written while running; whatever part of a pointer is missing or unusable is replaced. */
  lemma {:induction false} PointersMean(record: Record, c: Config, id: string, workflow: string)
    ensures Checkpoint(id, workflow, c) ==
            Record(id, workflow, Running, c.context,
                   Obj(map["next" := Num(Int(c.index)), "input" := c.input]), None)
    ensures var r := Restored(record);
            && r.context == record.context
            && (!record.pointer.Obj? ==> r.index == 0 && r.input == record.context)
            && (record.pointer.Obj? ==>
                  var fields := record.pointer.fields;
                  && r.input == (if "input" in fields then fields["input"] else record.context)
                  && (("next" in fields && exists n: nat :: fields["next"] == Num(Int(n)) && r.index == n)
                      || (r.index == 0 && ("next" in fields ==> forall n: nat :: fields["next"] != Num(Int(n))))))
  {
    if record.pointer.Obj? && "next" in record.pointer.fields {
      var next := record.pointer.fields["next"];
      if next.Num? && next.n.Int? && next.n.i >= 0 {
        var n: nat := next.n.i;
        assert next == Num(Int(n)) && Restored(record).index == n;
      }
    }
  }
}
