/** Programs that record derivations: what each command does to handles, marks and
    transcripts, what every run keeps, and the program that runs the commands. */
module DerivationRuns {
  import opened Numerals
  import opened DerivationRecord

  /** What a program does, with its handles and sessions by position. */
  datatype Command =
    | Begin(budget: nat)
    | BeginAgain(session: nat)
    | End(raised: bool)
    | Operate(operation: string, handles: seq<nat>, literal: string)
    | Simplified(handle: nat)
    | Expanded(handle: nat)
    | Small(n: int)
    | Drop(handle: nat)

  /** What came of a command. */
  datatype Effect =
    | Missing
    | Entered(session: Derivation, ok: bool)
    | Ended(completed: Result<seq<Step>>)
    | Returned(result: Result<Expr>)
    | Dropped

  /** What the program holds: the ledger, its handles, the small integers that are kept,
      its sessions, and the transcripts they completed with. */
  datatype State = State(
    ledger: Ledger,
    handles: seq<Expr>,
    small: map<int, Expr>,
    sessions: seq<Derivation>,
    sources: map<Derivation, seq<Step>>)

  const START := State(EMPTY, [], map[], [], map[])

  predicate AllHeld(s: State, positions: seq<nat>) {
    forall k :: 0 <= k < |positions| ==> positions[k] < |s.handles|
  }

  function Picked(handles: seq<Expr>, positions: seq<nat>): seq<Expr>
    requires forall k :: 0 <= k < |positions| ==> positions[k] < |handles|
  {
    seq(|positions|, k requires 0 <= k < |positions| => handles[positions[k]])
  }

  function Keeping(handles: seq<Expr>, r: Result<Expr>): seq<Expr> {
    if r.Ok? then handles + [r.value] else handles
  }

  function Entering(s: State, d: Derivation, ok: bool): State {
    if ok then s.(ledger := Begun(s.ledger, d)) else s
  }

  /** One session at a time, of a bounded length. */
  predicate CanEnter(s: State, d: Derivation) {
    s.ledger.active == null && d.budget <= 100000
  }

  /** The transcript that leaving completes the session with, if any. */
  function Completed(ledger: Ledger, raised: bool): Result<seq<Step>> {
    if raised || ledger.failed then Err else Ok(ledger.steps)
  }

  /** The command takes the program from one state to the other, with this effect. */
  predicate Moves(native: Native, s: State, command: Command, effect: Effect, t: State) {
    match command
    case Begin(budget) =>
      && effect.Entered? && effect.session.budget == budget && effect.ok == CanEnter(s, effect.session)
      && effect.session !in s.sessions
      && t == Entering(s.(sessions := s.sessions + [effect.session]), effect.session, effect.ok)
    case BeginAgain(k) =>
      if k >= |s.sessions| then effect == Missing && t == s
      else effect == Entered(s.sessions[k], CanEnter(s, s.sessions[k])) && t == Entering(s, s.sessions[k], effect.ok)
    case End(raised) =>
      var d := s.ledger.active;
      if d == null then effect == Missing && t == s
      else
        var completed := Completed(s.ledger, raised);
        && effect == Ended(completed)
        && t == s.(ledger := Finished(s.ledger),
                   sources := if completed.Ok? then s.sources[d := completed.value] else s.sources)
    case Operate(operation, positions, literal) =>
      if !AllHeld(s, positions) then effect == Missing && t == s
      else Operates(native, s, operation, Picked(s.handles, positions), literal, effect, t)
    case Simplified(h) =>
      if h >= |s.handles| then effect == Missing && t == s
      else Operates(native, s, "simplify", [s.handles[h]], "", effect, t)
    case Expanded(h) =>
      if h >= |s.handles| then effect == Missing && t == s
      else Operates(native, s, "expand", [s.handles[h]], "", effect, t)
    case Small(n) =>
      if !(-10 <= n <= 10) then effect == Missing && t == s
      else
        && effect.Returned? && Coerced(native, s.ledger, t.ledger, s.small, t.small, n, effect.result)
        && t == s.(ledger := t.ledger, small := t.small, handles := Keeping(s.handles, effect.result))
    case Drop(h) =>
      if h >= |s.handles| then effect == Missing && t == s
      else effect == Dropped && t == s.(ledger := Released(s.ledger, s.handles[h]))
  }

  predicate Operates(
    native: Native, s: State, operation: string, inputs: seq<Expr>, literal: string, effect: Effect, t: State)
  {
    && effect.Returned? && Produced(native, s.ledger, t.ledger, operation, inputs, literal, effect.result)
    && t == s.(ledger := t.ledger, handles := Keeping(s.handles, effect.result))
  }

  /** One state before every command and one after the last. */
  predicate Runs(native: Native, commands: seq<Command>, effects: seq<Effect>, states: seq<State>) {
    && |effects| == |commands| && |states| == |commands| + 1
    && forall k :: 0 <= k < |commands| ==> MovesAt(native, commands, effects, states, k)
  }

  predicate MovesAt(native: Native, commands: seq<Command>, effects: seq<Effect>, states: seq<State>, k: nat)
    requires k < |commands| == |effects| && |states| == |commands| + 1
  {
    Moves(native, states[k], commands[k], effects[k], states[k + 1])
  }

  // ---- What every run keeps ------------------------------------------------

  predicate SmallRight(native: Native, small: map<int, Expr>) {
    forall n :: n in small ==> -10 <= n <= 10 && native.compute("integer", [], Shown(n)) == Ok(small[n].value)
  }

  predicate Good(native: Native, s: State) {
    && InOrder(native, s.ledger) && SmallRight(native, s.small)
    && (forall d :: d in s.sources ==> RightTranscript(native, s.sources[d]))
  }

  lemma ProducedInOrder(
    native: Native, before: Ledger, after: Ledger, operation: string, inputs: seq<Expr>, literal: string,
    r: Result<Expr>)
    requires InOrder(native, before) && Produced(native, before, after, operation, inputs, literal, r)
    ensures InOrder(native, after)
  {
    match native.compute(operation, Inputs(inputs), literal)
    case Err =>
    case Ok(value) =>
      if before.active != null && CanRecord(native, before, operation, inputs, literal, value) && r.Ok? {
        RecordedInOrder(native, before, operation, inputs, literal, r.value);
      }
  }

  lemma CoercedInOrder(
    native: Native, before: Ledger, after: Ledger, kept: map<int, Expr>, keptAfter: map<int, Expr>, n: int,
    r: Result<Expr>)
    requires -10 <= n <= 10 && InOrder(native, before) && SmallRight(native, kept)
    requires Coerced(native, before, after, kept, keptAfter, n, r)
    ensures InOrder(native, after) && SmallRight(native, keptAfter)
  {
    assert Inputs([]) == [];
    if n !in kept {
      ProducedInOrder(native, before, after, "integer", [], Shown(n), r);
    } else if before.active != null && !Owned(before, kept[n]) && r.Ok? {
      RecordedInOrder(native, before, "integer", [], Shown(n), r.value);
    }
  }

  lemma MoveKeepsGood(native: Native, s: State, command: Command, effect: Effect, t: State)
    requires Good(native, s) && Moves(native, s, command, effect, t)
    ensures Good(native, t)
  {
    match command
    case Begin(_) => if effect.ok { BegunInOrder(native, s.ledger, effect.session); }
    case BeginAgain(k) => if effect.Entered? && effect.ok { BegunInOrder(native, s.ledger, effect.session); }
    case End(_) =>
    case Operate(operation, positions, literal) =>
      if AllHeld(s, positions) {
        ProducedInOrder(native, s.ledger, t.ledger, operation, Picked(s.handles, positions), literal, effect.result);
      }
    case Simplified(h) =>
      if h < |s.handles| {
        ProducedInOrder(native, s.ledger, t.ledger, "simplify", [s.handles[h]], "", effect.result);
      }
    case Expanded(h) =>
      if h < |s.handles| {
        ProducedInOrder(native, s.ledger, t.ledger, "expand", [s.handles[h]], "", effect.result);
      }
    case Small(n) =>
      if -10 <= n <= 10 {
        CoercedInOrder(native, s.ledger, t.ledger, s.small, t.small, n, effect.result);
      }
    case Drop(h) =>
      if h < |s.handles| {
        ReleasedInOrder(native, s.ledger, s.handles[h]);
      }
  }

  lemma {:induction false} RunKeepsGood(
    native: Native, commands: seq<Command>, effects: seq<Effect>, states: seq<State>, k: nat)
    requires Runs(native, commands, effects, states) && Good(native, states[0]) && k <= |commands|
    ensures Good(native, states[k])
  {
    if k > 0 {
      RunKeepsGood(native, commands, effects, states, k - 1);
      assert MovesAt(native, commands, effects, states, k - 1);
      MoveKeepsGood(native, states[k - 1], commands[k - 1], effects[k - 1], states[k]);
    }
  }

  /** Each step uses earlier steps only, and running the steps from nothing rebuilds the
      values that were observed. */
  predicate Replays(native: Native, steps: seq<Step>) {
    RightTranscript(native, steps) && Replay(native, steps) == Ok(ValuesOf(steps))
  }

  predicate SourcesReplay(native: Native, s: State) {
    forall d :: d in s.sources ==> Replays(native, s.sources[d])
  }

  lemma GoodReplays(native: Native, s: State)
    requires Good(native, s)
    ensures SourcesReplay(native, s)
  {
    forall d | d in s.sources ensures Replays(native, s.sources[d]) {
      ReplayRebuilds(native, s.sources[d]);
    }
  }

  /** Over every program, in any order of entering, leaving, entering again, reusing old
      results and closing: every transcript that leaving a session completes is the one
      recorded so far, and replays; and so does every transcript kept by a session. */
  lemma CompletedReplay(native: Native, commands: seq<Command>, effects: seq<Effect>, states: seq<State>, k: nat)
    requires Runs(native, commands, effects, states) && states[0] == START && k < |commands|
    ensures effects[k].Ended? && effects[k].completed.Ok? ==>
              effects[k].completed.value == states[k].ledger.steps && Replays(native, effects[k].completed.value)
    ensures SourcesReplay(native, states[k + 1])
  {
    assert MovesAt(native, commands, effects, states, k);
    assert Good(native, START);
    RunKeepsGood(native, commands, effects, states, k);
    RunKeepsGood(native, commands, effects, states, k + 1);
    if effects[k].Ended? && effects[k].completed.Ok? {
      ReplayRebuilds(native, effects[k].completed.value);
    }
    GoodReplays(native, states[k + 1]);
  }

  /** Every handle that the active session owns is rebuilt, unless it was entered before. */
  lemma OwnedAfterRun(
    native: Native, commands: seq<Command>, effects: seq<Effect>, states: seq<State>, k: nat, e: Expr)
    requires Runs(native, commands, effects, states) && states[0] == START && k <= |commands|
    requires states[k].ledger.active != null && Owned(states[k].ledger, e)
    ensures states[k].ledger.first || e in states[k].ledger.marked ==> Rebuilt(native, states[k].ledger, e)
  {
    assert Good(native, START);
    RunKeepsGood(native, commands, effects, states, k);
    OwnedRebuilt(native, states[k].ledger, e);
  }

  // ---- What a transcript may hold ------------------------------------------

  /** As many inputs as the operation takes. */
  predicate TakesItsInputs(step: Step) {
    && (step.operation in {"integer", "exact", "rational", "symbol", "constant"} ==> step.inputs == [])
    && (step.operation in {"simplify", "expand", "cancel", "factor"} ==> |step.inputs| == 1)
    && (step.operation in {"add", "subtract", "multiply", "divide", "power", "differentiate"} ==> |step.inputs| == 2)
    && (step.operation == "substitute" ==> |step.inputs| == 3)
    && step.operation in {
         "integer", "exact", "rational", "symbol", "constant", "simplify", "expand", "cancel", "factor", "add",
         "subtract", "multiply", "divide", "power", "differentiate", "substitute", "function"}
  }

  predicate DeclaresTwice(steps: seq<Step>, j: nat, k: nat)
    requires j < |steps| && k < |steps|
  {
    steps[j].operation == steps[k].operation == "symbol" && steps[j].literal == steps[k].literal
  }

  /** No longer than the budget, every step with as many inputs as its operation takes, no
      symbol declared twice, and every value one that can be exported. */
  predicate Tidy(native: Native, steps: seq<Step>, budget: nat) {
    && |steps| <= budget
    && (forall k :: 0 <= k < |steps| ==> TakesItsInputs(steps[k]) && native.exportable(steps[k].value))
    && (forall j, k :: 0 <= j < k < |steps| ==> !DeclaresTwice(steps, j, k))
  }

  predicate AllTidy(native: Native, s: State) {
    && LedgerTidy(native, s.ledger)
    && (forall d :: d in s.sources ==> Tidy(native, s.sources[d], d.budget))
  }

  lemma ArityIsInputs(step: Step)
    ensures Arity(step.operation, |step.inputs|) == |step.inputs| <==> TakesItsInputs(step)
  {}

  /** Exactly the steps that keep a transcript tidy are taken. */
  lemma TakenExactly(native: Native, steps: seq<Step>, budget: nat, step: Step)
    requires Tidy(native, steps, budget)
    ensures Takes(native, steps, budget, step.operation, |step.inputs|, step.literal, step.value) <==>
            Tidy(native, steps + [step], budget)
  {
    ArityIsInputs(step);
    var more := steps + [step];
    if Takes(native, steps, budget, step.operation, |step.inputs|, step.literal, step.value) {
      forall k | 0 <= k < |more| ensures TakesItsInputs(more[k]) && native.exportable(more[k].value) {
        assert k < |steps| ==> more[k] == steps[k];
      }
      forall j, k | 0 <= j < k < |more| ensures !DeclaresTwice(more, j, k) {
        assert k < |steps| ==> !DeclaresTwice(steps, j, k);
        assert k == |steps| ==> steps[j] in steps;
      }
    }
    if Tidy(native, more, budget) {
      assert more[|steps|] == step && TakesItsInputs(more[|steps|]);
      forall before | before in steps && before.operation == "symbol" && step.operation == "symbol"
        ensures before.literal != step.literal
      {
        var j :| 0 <= j < |steps| && steps[j] == before;
        assert !DeclaresTwice(more, j, |steps|);
      }
    }
  }

  predicate LedgerTidy(native: Native, ledger: Ledger) {
    ledger.active != null ==> Tidy(native, ledger.steps, ledger.active.budget)
  }

  lemma RecordedTidy(
    native: Native, ledger: Ledger, operation: string, inputs: seq<Expr>, literal: string, output: Expr)
    requires LedgerTidy(native, ledger) && CanRecord(native, ledger, operation, inputs, literal, output.value)
    ensures LedgerTidy(native, Recorded(ledger, operation, inputs, literal, output))
  {
    var step := DerivationRecord.Step(operation, StepsOf(ledger.marks, inputs), literal, output.value);
    TakenExactly(native, ledger.steps, ledger.active.budget, step);
  }

  lemma ObservedTidy(
    native: Native, before: Ledger, after: Ledger, operation: string, inputs: seq<Expr>, literal: string,
    value: Value, r: Result<Expr>)
    requires LedgerTidy(native, before) && (r.Ok? ==> r.value.value == value)
    requires Observed(native, before, after, operation, inputs, literal, value, r)
    ensures LedgerTidy(native, after)
  {
    if before.active != null && r.Ok? {
      RecordedTidy(native, before, operation, inputs, literal, r.value);
    }
  }

  lemma ProducedTidy(
    native: Native, before: Ledger, after: Ledger, operation: string, inputs: seq<Expr>, literal: string,
    r: Result<Expr>)
    requires LedgerTidy(native, before) && Produced(native, before, after, operation, inputs, literal, r)
    ensures LedgerTidy(native, after)
  {
    var computed := native.compute(operation, Inputs(inputs), literal);
    if computed.Ok? && AllOpen(before, inputs) {
      ObservedTidy(native, before, after, operation, inputs, literal, computed.value, r);
    }
  }

  lemma CoercedTidy(
    native: Native, before: Ledger, after: Ledger, kept: map<int, Expr>, keptAfter: map<int, Expr>, n: int,
    r: Result<Expr>)
    requires -10 <= n <= 10 && LedgerTidy(native, before)
    requires Coerced(native, before, after, kept, keptAfter, n, r)
    ensures LedgerTidy(native, after)
  {
    if n !in kept {
      ProducedTidy(native, before, after, "integer", [], Shown(n), r);
    } else if before.active != null && !Owned(before, kept[n]) && kept[n] !in before.closed {
      ObservedTidy(native, before, after, "integer", [], Shown(n), kept[n].value, r);
    }
  }

  lemma MoveKeepsTidy(native: Native, s: State, command: Command, effect: Effect, t: State)
    requires AllTidy(native, s) && Moves(native, s, command, effect, t)
    ensures AllTidy(native, t)
  {
    match command
    case Begin(_) =>
    case BeginAgain(_) =>
    case End(_) =>
    case Operate(operation, positions, literal) =>
      if AllHeld(s, positions) {
        ProducedTidy(native, s.ledger, t.ledger, operation, Picked(s.handles, positions), literal, effect.result);
      }
    case Simplified(h) =>
      if h < |s.handles| {
        ProducedTidy(native, s.ledger, t.ledger, "simplify", [s.handles[h]], "", effect.result);
      }
    case Expanded(h) =>
      if h < |s.handles| {
        ProducedTidy(native, s.ledger, t.ledger, "expand", [s.handles[h]], "", effect.result);
      }
    case Small(n) =>
      if -10 <= n <= 10 {
        CoercedTidy(native, s.ledger, t.ledger, s.small, t.small, n, effect.result);
      }
    case Drop(_) =>
  }

  /** Every transcript of every run is tidy. */
  lemma {:induction false} TranscriptsTidy(
    native: Native, commands: seq<Command>, effects: seq<Effect>, states: seq<State>, k: nat)
    requires Runs(native, commands, effects, states) && states[0] == START && k <= |commands|
    ensures AllTidy(native, states[k])
  {
    if k > 0 {
      TranscriptsTidy(native, commands, effects, states, k - 1);
      assert MovesAt(native, commands, effects, states, k - 1);
      MoveKeepsTidy(native, states[k - 1], commands[k - 1], effects[k - 1], states[k]);
    }
  }

  /** Nothing is returned in a session without its mark, and nothing in a spoilt one but
      what carries it already. */
  lemma ReturnedOwned(native: Native, s: State, command: Command, effect: Effect, t: State)
    requires Moves(native, s, command, effect, t) && effect.Returned? && effect.result.Ok?
    requires s.ledger.active != null
    ensures t.ledger.active == s.ledger.active && Owned(t.ledger, effect.result.value)
    ensures s.ledger.failed ==> t.ledger == s.ledger && command.Small?
  {}

  /** A spoilt session stays spoilt until it is left, and its transcript does not grow. */
  lemma SpoiltStays(native: Native, s: State, command: Command, effect: Effect, t: State)
    requires Moves(native, s, command, effect, t) && s.ledger.active != null && s.ledger.failed && !command.End?
    ensures t.ledger.active == s.ledger.active && t.ledger.failed && t.ledger.steps == s.ledger.steps
  {}

  // ---- A session entered again ---------------------------------------------

  const AGAIN := [Begin(1), Small(1), End(false), BeginAgain(0)]

  /** The handle still carries the session's mark, and the new transcript has no step. */
  lemma EnteredAgain(native: Native, effects: seq<Effect>, states: seq<State>)
    requires native.compute("integer", [], Shown(1)).Ok?
    requires native.exportable(native.compute("integer", [], Shown(1)).value)
    requires Runs(native, AGAIN, effects, states) && states[0] == START
    ensures var after := states[4];
            && |after.handles| == 1 && after.ledger.active != null && Owned(after.ledger, after.handles[0])
            && after.ledger.steps == [] && !Rebuilt(native, after.ledger, after.handles[0])
  {
    assert MovesAt(native, AGAIN, effects, states, 0) && MovesAt(native, AGAIN, effects, states, 1);
    assert MovesAt(native, AGAIN, effects, states, 2) && MovesAt(native, AGAIN, effects, states, 3);
    assert Inputs([]) == [];
    var d := effects[0].session;
    assert states[1].ledger == Begun(EMPTY, d);
    assert states[2].handles == [effects[1].result.value];
    assert states[3].sessions == [d];
    assert Replay(native, []) == Ok([]);
  }

  // ---- The program ---------------------------------------------------------

  class Program {
    const arena: Arena
    var handles: seq<Expr>
    var sessions: seq<Derivation>
    ghost var sources: map<Derivation, seq<Step>>

    constructor (native: Native)
      ensures Valid() && fresh(arena) && arena.native == native && Snapshot() == START
    {
      arena := new Arena(native);
      handles, sessions, sources := [], [], map[];
    }

    ghost predicate Valid()
      reads this, arena, arena.exprs, arena.Active(), sessions
    {
      && arena.Valid()
      && (forall e :: e in handles ==> e in arena.exprs)
      && (arena.derivation != null ==> arena.derivation in sessions)
      && (forall d :: d in sessions ==> SessionRight(d))
      && sources.Keys <= set d | d in sessions
    }

    ghost predicate SessionRight(d: Derivation)
      reads this, arena, d
    {
      && (d.active ==> d == arena.derivation)
      && d.source == if d in sources then Ok(sources[d]) else Err
    }

    ghost function Snapshot(): State
      reads this, arena
    {
      State(arena.ledger, handles, arena.integerCache, sessions, sources)
    }

    /** The program and all it holds. */
    ghost function Objects(): set<object>
      reads this, arena
    {
      {this, arena} + arena.exprs + set d | d in sessions :: d
    }

    /** Runs the commands; one that raises changes no more than what is said of it. */
    method Run(commands: seq<Command>) returns (ghost effects: seq<Effect>, ghost states: seq<State>)
      requires Valid()
      modifies Objects()
      ensures Valid()
      ensures Runs(arena.native, commands, effects, states)
      ensures states[0] == old(Snapshot()) && states[|commands|] == Snapshot()
    {
      effects, states := [], [Snapshot()];
      for k := 0 to |commands|
        invariant Valid() && forall o :: o in Objects() ==> o in old(Objects()) || fresh(o)
        invariant |effects| == k && |states| == k + 1 && states[0] == old(Snapshot()) && states[k] == Snapshot()
        invariant forall j :: 0 <= j < k ==> Moves(arena.native, states[j], commands[j], effects[j], states[j + 1])
      {
        ghost var effect := Step(commands[k]);
        effects, states := effects + [effect], states + [Snapshot()];
      }
      forall k | 0 <= k < |commands| ensures MovesAt(arena.native, commands, effects, states, k) {
        assert Moves(arena.native, states[k], commands[k], effects[k], states[k + 1]);
      }
    }

    method Step(command: Command) returns (ghost effect: Effect)
      requires Valid()
      modifies Objects()
      ensures Valid() && forall o :: o in Objects() ==> o in old(Objects()) || fresh(o)
      ensures Moves(arena.native, old(Snapshot()), command, effect, Snapshot())
    {
      match command {
        case Begin(budget) => effect := Start(budget);
        case BeginAgain(k) =>
          assert k < |sessions| ==> sessions[k] in sessions;
          effect := Restart(k);
        case End(raised) => effect := Finish(raised);
        case Operate(operation, positions, literal) => effect := Compute(operation, positions, literal);
        case Simplified(h) => effect := Simplify(h);
        case Expanded(h) => effect := Expand(h);
        case Small(n) => effect := Coerce(n);
        case Drop(h) => effect := Release(h);
      }
    }

    method Start(budget: nat) returns (ghost effect: Effect)
      requires Valid()
      modifies this`sessions, arena
      ensures Valid() && arena.exprs == old(arena.exprs) && forall d :: d in sessions ==> d in old(sessions) || fresh(d)
      ensures Moves(arena.native, old(Snapshot()), Begin(budget), effect, Snapshot())
    {
      var d := new Derivation(budget);
      var ok := arena.Enter(d);
      sessions := sessions + [d];
      effect := Entered(d, ok);
    }

    method Restart(k: nat) returns (ghost effect: Effect)
      requires Valid()
      modifies arena, if k < |sessions| then {sessions[k]} else {}
      ensures Valid() && arena.exprs == old(arena.exprs) && sessions == old(sessions)
      ensures Moves(arena.native, old(Snapshot()), BeginAgain(k), effect, Snapshot())
    {
      if k >= |sessions| {
        return Missing;
      }
      assert sessions[k] in sessions;
      var ok := arena.Enter(sessions[k]);
      effect := Entered(sessions[k], ok);
    }

    method Finish(raised: bool) returns (ghost effect: Effect)
      requires Valid()
      modifies this`sources, arena, arena.Active()
      ensures Valid() && arena.exprs == old(arena.exprs) && sessions == old(sessions)
      ensures Moves(arena.native, old(Snapshot()), End(raised), effect, Snapshot())
    {
      if arena.derivation == null {
        return Missing;
      }
      ghost var d, completed := arena.derivation, Completed(arena.ledger, raised);
      var ok := arena.Exit(raised);
      sources := if completed.Ok? then sources[d := completed.value] else sources;
      effect := Ended(completed);
    }

    /** The program holds on to a result. */
    method Keep(r: Result<Expr>)
      requires Valid() && (r.Ok? ==> r.value in arena.exprs)
      modifies this`handles
      ensures Valid() && handles == Keeping(old(handles), r)
    {
      if r.Ok? {
        handles := handles + [r.value];
      }
    }

    method Compute(operation: string, positions: seq<nat>, literal: string) returns (ghost effect: Effect)
      requires Valid()
      modifies this`handles, arena, arena.Active()
      ensures Valid() && fresh(arena.exprs - old(arena.exprs))
      ensures Moves(arena.native, old(Snapshot()), Operate(operation, positions, literal), effect, Snapshot())
    {
      if exists k :: 0 <= k < |positions| && positions[k] >= |handles| {
        return Missing;
      }
      var r := arena.Produce(operation, Picked(handles, positions), literal);
      Keep(r);
      effect := Returned(r);
    }

    method Simplify(h: nat) returns (ghost effect: Effect)
      requires Valid()
      modifies this`handles, arena, arena.exprs, arena.Active()
      ensures Valid() && fresh(arena.exprs - old(arena.exprs))
      ensures Moves(arena.native, old(Snapshot()), Simplified(h), effect, Snapshot())
    {
      if h >= |handles| {
        return Missing;
      }
      var r := arena.Simplify(handles[h]);
      Keep(r);
      effect := Returned(r);
    }

    method Expand(h: nat) returns (ghost effect: Effect)
      requires Valid()
      modifies this`handles, arena, arena.exprs, arena.Active()
      ensures Valid() && fresh(arena.exprs - old(arena.exprs))
      ensures Moves(arena.native, old(Snapshot()), Expanded(h), effect, Snapshot())
    {
      if h >= |handles| {
        return Missing;
      }
      var r := arena.Expand(handles[h]);
      Keep(r);
      effect := Returned(r);
    }

    method Coerce(n: int) returns (ghost effect: Effect)
      requires Valid()
      modifies this`handles, arena, arena.exprs, arena.Active()
      ensures Valid() && fresh(arena.exprs - old(arena.exprs))
      ensures Moves(arena.native, old(Snapshot()), Small(n), effect, Snapshot())
    {
      if n < -10 || n > 10 {
        return Missing;
      }
      var r := arena.CoerceSmall(n);
      Keep(r);
      effect := Returned(r);
    }

    method Release(h: nat) returns (ghost effect: Effect)
      requires Valid()
      modifies arena, if h < |handles| then {handles[h]} else {}
      ensures Valid() && fresh(arena.exprs - old(arena.exprs))
      ensures Moves(arena.native, old(Snapshot()), Drop(h), effect, Snapshot())
    {
      if h >= |handles| {
        return Missing;
      }
      arena.Close(handles[h]);
      effect := Dropped;
    }
  }
}
