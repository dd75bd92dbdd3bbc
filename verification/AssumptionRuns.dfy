/** Programs over an arena with assumption scopes: a machine without caches or epochs that
    says what each command does, and the session that runs the commands with them. */
module AssumptionRuns {
  import opened Assumptions

  // ---- Programs ------------------------------------------------------------

  datatype Asked = AsFact(fact: int) | AsRelation

  /** What a program does with the handles and scopes it has, by their position. */
  datatype Command =
    | New(value: Value, borrowed: bool)
    | Ask(handle: nat, operation: Operation)
    | Assume(handle: nat, asked: Asked)
    | CloseHandle(handle: nat)
    | NewScope(handles: seq<nat>, facts: seq<Asked>)
    | With(entering: nat, inside: seq<Command>)
    | Attempt(tried: seq<Command>)

  /** What came of a command. */
  datatype Effect =
    | Missing
    | Made(expression: Expr)
    | Answered(answer: Result<Expr>)
    | Assumed(accepted: bool)
    | Closed
    | ScopeMade(scope: AssumptionScope)
    | NotEntered
    | Left(inside: seq<Done>)
    | Tried(tried: seq<Done>)

  datatype Done = Done(raised: bool, effect: Effect)

  // ---- The machine ---------------------------------------------------------

  /** Handles and scopes as the program holds them, which of them are closed and which
      entered, and the facts in force. There are no caches and no epochs. */
  datatype State = State(
    handles: seq<Expr>,
    closed: set<Expr>,
    scopes: seq<AssumptionScope>,
    entered: set<AssumptionScope>,
    context: Context)

  function AsAssumption(e: Expr, asked: Asked): Fact {
    match asked
    case AsFact(fact) => Known(e.value, fact)
    case AsRelation => Relation(e.value)
  }

  predicate AllHeld(s: State, positions: seq<nat>) {
    forall k :: 0 <= k < |positions| ==> positions[k] < |s.handles|
  }

  function ScopeFacts(handles: seq<Expr>, positions: seq<nat>, asked: seq<Asked>): seq<Assumption>
    requires |positions| == |asked| && forall k :: 0 <= k < |positions| ==> positions[k] < |handles|
  {
    seq(|positions|, k requires 0 <= k < |positions| =>
      Assumption(handles[positions[k]], AsAssumption(handles[positions[k]], asked[k])))
  }

  ghost predicate MayEnter(native: Native, s: State, scope: AssumptionScope) {
    && (forall k :: 0 <= k < |scope.facts| ==> scope.facts[k].expression !in s.closed)
    && native.canPush(s.context) && AcceptsAll(native, s.context, FactsOf(scope.facts))
  }

  function Entered(s: State, scope: AssumptionScope): State {
    s.(entered := s.entered + {scope}, context := s.context + [FactsOf(scope.facts)])
  }

  /** Leaving pops a scope only if the object still counts as entered. */
  function Exited(s: State, scope: AssumptionScope): State {
    if scope in s.entered && s.context != []
    then s.(entered := s.entered - {scope}, context := s.context[..|s.context| - 1])
    else s
  }

  /** The state after a command, given what came of it. */
  function After(s: State, command: Command, done: Done): State
    decreases command, 0
  {
    match (command, done.effect)
    case (New(_, _), Made(e)) => s.(handles := s.handles + [e])
    case (Ask(_, _), Answered(Ok(e))) => s.(handles := s.handles + [e])
    case (Assume(h, asked), Assumed(true)) =>
      if h < |s.handles| && s.context != []
      then s.(context := WithFact(s.context, AsAssumption(s.handles[h], asked))) else s
    case (CloseHandle(h), Closed) =>
      if h < |s.handles| && !s.handles[h].borrowed then s.(closed := s.closed + {s.handles[h]}) else s
    case (NewScope(_, _), ScopeMade(scope)) => s.(scopes := s.scopes + [scope])
    case (With(k, inside), Left(log)) =>
      if k < |s.scopes| && |log| <= |inside|
      then Exited(AfterAll(Entered(s, s.scopes[k]), inside, log), s.scopes[k]) else s
    case (Attempt(tried), Tried(log)) => if |log| <= |tried| then AfterAll(s, tried, log) else s
    case _ => s
  }

  function AfterAll(s: State, commands: seq<Command>, log: seq<Done>): State
    requires |log| <= |commands|
    decreases commands, |log|
  {
    if log == [] then s
    else
      var last := |log| - 1;
      After(AfterAll(s, commands, log[..last]), commands[last], log[last])
  }

  /** What came of the command is right: in particular a question on an open handle is
      answered by an open handle on what the native library computes in the present
      context, or by its refusal. */
  ghost predicate Right(native: Native, s: State, command: Command, done: Done)
    decreases command, 0
  {
    match command
    case New(value, borrowed) =>
      done.effect.Made? && !done.raised &&
      var e := done.effect.expression;
      e.value == value && e.borrowed == borrowed && e !in s.handles && e !in s.closed
    case Ask(h, operation) =>
      if h >= |s.handles| then done == Done(true, Missing)
      else done.effect.Answered? && RightAnswer(native, s, s.handles[h], operation, done.effect.answer) &&
           done.raised == done.effect.answer.Err?
    case Assume(h, asked) =>
      if h >= |s.handles| then done == Done(true, Missing)
      else
        var e := s.handles[h];
        var accepted := e !in s.closed && native.accepts(AsAssumption(e, asked), s.context);
        done == Done(!accepted, Assumed(accepted))
    case CloseHandle(h) =>
      done == if h < |s.handles| then Done(false, Closed) else Done(true, Missing)
    case NewScope(positions, asked) =>
      if |positions| != |asked| || !AllHeld(s, positions) then done == Done(true, Missing)
      else done.effect.ScopeMade? && !done.raised &&
           var scope := done.effect.scope;
           scope.facts == ScopeFacts(s.handles, positions, asked) && scope !in s.scopes && scope !in s.entered
    case With(k, inside) =>
      if k >= |s.scopes| then done == Done(true, Missing)
      else if !MayEnter(native, s, s.scopes[k]) then done == Done(true, NotEntered)
      else done.effect.Left? && Runs(native, Entered(s, s.scopes[k]), inside, done.effect.inside, !done.raised)
    case Attempt(tried) =>
      done.effect.Tried? && !done.raised && exists ok :: Runs(native, s, tried, done.effect.tried, ok)
  }

  predicate RightAnswer(native: Native, s: State, e: Expr, operation: Operation, answer: Result<Expr>) {
    if e in s.closed then answer == Err(ExpressionClosed)
    else match native.compute(operation, e.value, s.context)
      case Err(error) => answer == Err(error)
      case Ok(value) => answer.Ok? && answer.value.value == value && answer.value !in s.closed
  }

  /** The log has one entry for each command up to the first that raised, or for all of
      them, and every entry is right. */
  ghost predicate Runs(native: Native, s: State, commands: seq<Command>, log: seq<Done>, ok: bool)
    decreases commands, |commands| + 1
  {
    && |log| <= |commands|
    && (forall k :: 0 <= k < |log| ==> RightAt(native, s, commands, log, k))
    && (forall k :: 0 <= k < |log| ==> (log[k].raised <==> !ok && k == |log| - 1))
    && (if ok then |log| == |commands| else log != [])
  }

  ghost predicate RightAt(native: Native, s: State, commands: seq<Command>, log: seq<Done>, k: nat)
    requires k < |log| <= |commands|
    decreases commands, |commands|
  {
    Right(native, AfterAll(s, commands, log[..k]), commands[k], log[k])
  }

  lemma OneMoreDone(native: Native, s: State, commands: seq<Command>, log: seq<Done>, done: Done)
    requires |log| < |commands| && forall k :: 0 <= k < |log| ==> RightAt(native, s, commands, log, k)
    requires Right(native, AfterAll(s, commands, log), commands[|log|], done)
    ensures forall k :: 0 <= k < |log| + 1 ==> RightAt(native, s, commands, log + [done], k)
    ensures AfterAll(s, commands, log + [done]) == After(AfterAll(s, commands, log), commands[|log|], done)
  {
    var more := log + [done];
    assert more[..|log|] == log;
    forall k | 0 <= k < |more| ensures RightAt(native, s, commands, more, k) {
      if k < |log| {
        assert RightAt(native, s, commands, log, k) && more[..k] == log[..k];
      }
    }
  }

  // ---- What a run does to the context --------------------------------------

  /** Scopes were within, and facts added to the innermost one; nothing was taken back. */
  predicate Grows(before: Context, after: Context) {
    && 0 < |before| <= |after|
    && before[..|before| - 1] == after[..|before| - 1]
    && before[|before| - 1] <= after[|before| - 1]
  }

  lemma GrowsTwice(a: Context, b: Context, c: Context)
    requires Grows(a, b) && Grows(b, c)
    ensures Grows(a, c)
  {
    assert a[..|a| - 1] == b[..|a| - 1] == b[..|b| - 1][..|a| - 1] == c[..|b| - 1][..|a| - 1];
    if |b| > |a| {
      assert b[|a| - 1] == b[..|b| - 1][|a| - 1] == c[..|b| - 1][|a| - 1];
    }
  }

  /** How often a scope was entered that was entered already. */
  function Reentries(s: State, command: Command, done: Done): nat
    decreases command, 0
  {
    match (command, done.effect)
    case (With(k, inside), Left(log)) =>
      if k < |s.scopes| && |log| <= |inside|
      then (if s.scopes[k] in s.entered then 1 else 0) + AllReentries(Entered(s, s.scopes[k]), inside, log)
      else 0
    case (Attempt(tried), Tried(log)) => if |log| <= |tried| then AllReentries(s, tried, log) else 0
    case _ => 0
  }

  function AllReentries(s: State, commands: seq<Command>, log: seq<Done>): nat
    requires |log| <= |commands|
    decreases commands, |log|
  {
    if log == [] then 0
    else
      var last := |log| - 1;
      AllReentries(s, commands, log[..last]) +
      Reentries(AfterAll(s, commands, log[..last]), commands[last], log[last])
  }

  /** The open scopes are those of the entered objects and those that a second entry left
      behind; entered objects are left. */
  ghost predicate Balanced(s: State, after: State, reentries: nat) {
    && Grows(s.context, after.context)
    && after.entered <= s.entered && (reentries == 0 ==> after.entered == s.entered)
    && |after.context| + |s.entered| == |s.context| + |after.entered| + reentries
  }

  lemma {:induction false} RunBalanced(native: Native, s: State, commands: seq<Command>, log: seq<Done>)
    requires s.context != [] && |log| <= |commands|
    requires forall k :: 0 <= k < |log| ==> RightAt(native, s, commands, log, k)
    ensures Balanced(s, AfterAll(s, commands, log), AllReentries(s, commands, log))
    decreases commands, |log|
  {
    if log != [] {
      var last := |log| - 1;
      var front := log[..last];
      forall k | 0 <= k < |front| ensures RightAt(native, s, commands, front, k) {
        assert RightAt(native, s, commands, log, k) && front[..k] == log[..k];
      }
      RunBalanced(native, s, commands, front);
      assert RightAt(native, s, commands, log, last);
      var between := AfterAll(s, commands, front);
      CommandBalanced(native, between, commands[last], log[last]);
      GrowsTwice(s.context, between.context, AfterAll(s, commands, log).context);
    }
  }

  lemma {:induction false} CommandBalanced(native: Native, s: State, command: Command, done: Done)
    requires s.context != [] && Right(native, s, command, done)
    ensures Balanced(s, After(s, command, done), Reentries(s, command, done))
    decreases command, 0
  {
    match command
    case With(k, inside) =>
      if done.effect.Left? {
        var scope, log := s.scopes[k], done.effect.inside;
        var within := Entered(s, scope);
        RunBalanced(native, within, inside, log);
        BlockBalanced(s, scope, AfterAll(within, inside, log), AllReentries(within, inside, log));
      }
    case Attempt(tried) =>
      var ok :| Runs(native, s, tried, done.effect.tried, ok);
      RunBalanced(native, s, tried, done.effect.tried);
    case _ =>
  }

  /** A block with its scope, from what its body does. */
  lemma BlockBalanced(s: State, scope: AssumptionScope, end: State, reentries: nat)
    requires s.context != [] && Balanced(Entered(s, scope), end, reentries)
    ensures Balanced(s, Exited(end, scope), reentries + if scope in s.entered then 1 else 0)
    ensures |Exited(end, scope).context| >= |s.context| && Exited(end, scope).context[..|s.context|] == s.context
  {
    var within := Entered(s, scope);
    assert within.context[..|within.context| - 1] == s.context;
    assert end.context[..|s.context|] == s.context;
  }

  /** Where no scope was entered before: every scope entered is left, and the open scopes
      are as many as before and one for each time a scope was entered inside a block of
      itself. So the context is restored exactly when that did not happen. */
  lemma ScopesAreLeft(native: Native, s: State, commands: seq<Command>, log: seq<Done>, ok: bool)
    requires s.context != [] && s.entered == {} && Runs(native, s, commands, log, ok)
    ensures var after := AfterAll(s, commands, log);
            && after.entered == {} && Grows(s.context, after.context)
            && |after.context| == |s.context| + AllReentries(s, commands, log)
  {
    RunBalanced(native, s, commands, log);
  }

  /** A block restores the context, whether or not its body raised, when no scope was
      entered inside a block of itself; and an outermost block only then. */
  lemma BlockRestores(native: Native, s: State, k: nat, inside: seq<Command>, done: Done)
    requires s.context != [] && Right(native, s, With(k, inside), done)
    ensures Reentries(s, With(k, inside), done) == 0 ==> After(s, With(k, inside), done).context == s.context
    ensures s.entered == {} && After(s, With(k, inside), done).context == s.context ==>
              Reentries(s, With(k, inside), done) == 0
  {
    CommandBalanced(native, s, With(k, inside), done);
    if done.effect.Left? {
      var scope, log := s.scopes[k], done.effect.inside;
      RunBalanced(native, Entered(s, scope), inside, log);
      BlockBalanced(s, scope, AfterAll(Entered(s, scope), inside, log), AllReentries(Entered(s, scope), inside, log));
    }
  }

  // ---- A scope inside itself -----------------------------------------------

  const START := State([], {}, [], {}, [[]])
  const NESTED := [NewScope([], []), With(0, [With(0, [])])]

  /** A program that enters a scope inside a block of itself, with a library that takes
      every scope: all goes well, and one scope is left behind. */
  lemma NestedScopeStays(native: Native, log: seq<Done>, ok: bool)
    requires (forall context :: native.canPush(context)) && Runs(native, START, NESTED, log, ok)
    ensures ok && AfterAll(START, NESTED, log).context == [[], []]
  {
    assert RightAt(native, START, NESTED, log, 0) && log[..0] == [];
    var scope := log[0].effect.scope;
    var made := START.(scopes := [scope]);
    assert log[..1] == [log[0]] && [log[0]][..0] == [];
    assert AfterAll(START, NESTED, log[..1]) == made;
    assert RightAt(native, START, NESTED, log, 1);
    assert log[..2] == log && log[..2][..1] == log[..1];
    assert FactsOf(scope.facts) == [];
    var outer := Entered(made, scope);
    assert outer == made.(entered := {scope}, context := [[], []]);
    var body := log[1].effect.inside;
    NestedBlock(native, outer, body, !log[1].raised);
    assert NESTED[1] == With(0, [With(0, [])]);
  }

  lemma NestedBlock(native: Native, outer: State, body: seq<Done>, ok: bool)
    requires (forall context :: native.canPush(context)) && outer.context == [[], []]
    requires |outer.scopes| == 1 && outer.scopes[0].facts == [] && outer.entered == {outer.scopes[0]}
    requires Runs(native, outer, [With(0, [])], body, ok)
    ensures ok && |body| == 1 && AfterAll(outer, [With(0, [])], body) == outer.(entered := {})
  {
    assert RightAt(native, outer, [With(0, [])], body, 0) && body[..0] == [];
    var scope := outer.scopes[0];
    var inner := Entered(outer, scope);
    assert FactsOf(scope.facts) == [] && inner.context == [[], [], []];
    assert body == [body[0]];
    assert body[0].effect.inside == [];
    assert Exited(inner, scope).context == outer.context && Exited(inner, scope).entered == {};
  }

  // ---- The session with its caches -----------------------------------------

  class Session {
    const arena: Arena
    var handles: seq<Expr>
    var scopes: seq<AssumptionScope>

    constructor (native: Native)
      ensures Valid() && fresh(arena) && arena.native == native && Snapshot() == START
    {
      arena := new Arena(native);
      handles, scopes := [], [];
      new;
      assert Snapshot() == START;
    }

    ghost predicate Valid()
      reads this, arena, arena.exprs, scopes
    {
      && arena.Valid()
      && (forall e :: e in handles ==> e in arena.exprs)
      && (forall scope :: scope in scopes ==> scope.arena == arena)
      && (forall scope, fact :: scope in scopes && fact in scope.facts ==> fact.expression in arena.exprs)
    }

    /** The session, its arena, and the expressions and scopes it holds. */
    ghost function Objects(): set<object>
      reads this, arena
    {
      {this, arena} + arena.exprs + set scope | scope in scopes :: scope
    }

    ghost function ClosedExprs(): set<Expr>
      reads arena, arena.exprs
    {
      set e | e in arena.exprs && !e.open
    }

    ghost function EnteredScopes(): set<AssumptionScope>
      reads this, scopes
    {
      set scope | scope in scopes && scope.entered
    }

    /** What the machine knows of the session. */
    ghost function Snapshot(): State
      reads this, arena, arena.exprs, scopes
    {
      State(handles, ClosedExprs(), scopes, EnteredScopes(), arena.frames)
    }

    /** Only new objects joined the session. */
    twostate predicate Grown()
      reads this, arena
    {
      && (forall e :: e in old(arena.exprs) ==> e in arena.exprs)
      && old(scopes) <= scopes
      && (forall o :: o in Objects() ==> o in old(Objects()) || fresh(o))
    }

    /** Runs the commands until one raises; `ok` is false when one did. With its caches
        and epochs the session does what the machine without them allows: the log has
        what came of every command, each of them right, and the session ends in the
        machine's state. */
    method Run(commands: seq<Command>) returns (ok: bool, ghost log: seq<Done>)
      requires Valid()
      modifies Objects()
      ensures Valid() && Grown()
      ensures Runs(arena.native, old(Snapshot()), commands, log, ok)
      ensures Snapshot() == AfterAll(old(Snapshot()), commands, log)
      decreases commands, 0
    {
      ghost var start := Snapshot();
      log := [];
      var k := 0;
      while k < |commands|
        invariant 0 <= k == |log| <= |commands|
        invariant Valid() && Grown()
        invariant forall o :: o in Objects() ==> o in old(Objects()) || fresh(o)
        invariant forall j :: 0 <= j < |log| ==> RightAt(arena.native, start, commands, log, j)
        invariant forall j :: 0 <= j < |log| ==> !log[j].raised
        invariant Snapshot() == AfterAll(start, commands, log)
      {
        ghost var done;
        ok, done := Step(commands[k]);
        OneMoreDone(arena.native, start, commands, log, done);
        log := log + [done];
        if !ok {
          return;
        }
        k := k + 1;
      }
      ok := true;
    }

    method Step(command: Command) returns (ok: bool, ghost done: Done)
      requires Valid()
      modifies Objects()
      ensures Valid() && Grown()
      ensures ok == !done.raised
      ensures Right(arena.native, old(Snapshot()), command, done)
      ensures Snapshot() == After(old(Snapshot()), command, done)
      decreases command, 1
    {
      match command {
        case New(value, borrowed) =>
          done := Create(value, borrowed);
          ok := true;
        case Ask(h, operation) =>
          ok, done := Question(h, operation);
        case Assume(h, asked) =>
          ok, done := Tell(h, asked);
        case CloseHandle(h) =>
          ok, done := Release(h);
        case NewScope(positions, asked) =>
          ok, done := Prepare(positions, asked);
        case With(k, inside) =>
          ok, done := Block(k, inside);
        case Attempt(tried) =>
          var ignored, log := Run(tried);
          ok, done := true, Done(false, Tried(log));
      }
    }

    method Create(value: Value, borrowed: bool) returns (ghost done: Done)
      requires Valid()
      modifies this`handles, arena`exprs
      ensures Valid() && Grown() && !done.raised
      ensures Right(arena.native, old(Snapshot()), New(value, borrowed), done)
      ensures Snapshot() == After(old(Snapshot()), New(value, borrowed), done)
    {
      var e := arena.NewExpression(value, borrowed);
      handles := handles + [e];
      done := Done(false, Made(e));
      assert ClosedExprs() == old(ClosedExprs()) && EnteredScopes() == old(EnteredScopes());
    }

    method Question(h: nat, operation: Operation) returns (ok: bool, ghost done: Done)
      requires Valid()
      modifies this`handles, arena`exprs, if h < |handles| then {handles[h]} else {}
      ensures Valid() && Grown() && ok == !done.raised
      ensures Right(arena.native, old(Snapshot()), Ask(h, operation), done)
      ensures Snapshot() == After(old(Snapshot()), Ask(h, operation), done)
    {
      if h >= |handles| {
        return false, Done(true, Missing);
      }
      var answer := handles[h].Perform(operation);
      if answer.Ok? {
        handles := handles + [answer.value];
      }
      ok, done := answer.Ok?, Done(answer.Err?, Answered(answer));
      assert ClosedExprs() == old(ClosedExprs()) && EnteredScopes() == old(EnteredScopes());
    }

    method Tell(h: nat, asked: Asked) returns (ok: bool, ghost done: Done)
      requires Valid()
      modifies arena`frames, arena`epoch
      ensures Valid() && Grown() && ok == !done.raised
      ensures Right(arena.native, old(Snapshot()), Assume(h, asked), done)
      ensures Snapshot() == After(old(Snapshot()), Assume(h, asked), done)
    {
      if h >= |handles| {
        return false, Done(true, Missing);
      }
      var r := arena.AssumeFact(handles[h], AsAssumption(handles[h], asked));
      ok, done := r.Ok?, Done(r.Err?, Assumed(r.Ok?));
      assert ClosedExprs() == old(ClosedExprs()) && EnteredScopes() == old(EnteredScopes());
    }

    method Release(h: nat) returns (ok: bool, ghost done: Done)
      requires Valid()
      modifies if h < |handles| then {handles[h]} else {}
      ensures Valid() && Grown() && ok == !done.raised
      ensures Right(arena.native, old(Snapshot()), CloseHandle(h), done)
      ensures Snapshot() == After(old(Snapshot()), CloseHandle(h), done)
    {
      if h >= |handles| {
        return false, Done(true, Missing);
      }
      handles[h].Close();
      ok, done := true, Done(false, Closed);
      assert EnteredScopes() == old(EnteredScopes());
      assert ClosedExprs() == if handles[h].borrowed then old(ClosedExprs()) else old(ClosedExprs()) + {handles[h]};
    }

    method Prepare(positions: seq<nat>, asked: seq<Asked>) returns (ok: bool, ghost done: Done)
      requires Valid()
      modifies this`scopes
      ensures Valid() && Grown() && ok == !done.raised
      ensures Right(arena.native, old(Snapshot()), NewScope(positions, asked), done)
      ensures Snapshot() == After(old(Snapshot()), NewScope(positions, asked), done)
    {
      if |positions| != |asked| || exists k :: 0 <= k < |positions| && positions[k] >= |handles| {
        return false, Done(true, Missing);
      }
      var scope := new AssumptionScope(arena, ScopeFacts(handles, positions, asked));
      scopes := scopes + [scope];
      ok, done := true, Done(false, ScopeMade(scope));
      assert ClosedExprs() == old(ClosedExprs()) && EnteredScopes() == old(EnteredScopes());
    }

    /** `with scope:`; the scope is left whether or not the body raised. */
    method Block(k: nat, inside: seq<Command>) returns (ok: bool, ghost done: Done)
      requires Valid()
      modifies Objects()
      ensures Valid() && Grown() && ok == !done.raised
      ensures Right(arena.native, old(Snapshot()), With(k, inside), done)
      ensures Snapshot() == After(old(Snapshot()), With(k, inside), done)
      decreases inside, 1
    {
      if k >= |scopes| {
        return false, Done(true, Missing);
      }
      var scope := scopes[k];
      assert scope in scopes;
      var r := Open(scope);
      if r.Err? {
        return false, Done(true, NotEntered);
      }
      ghost var within, log := Snapshot(), [];
      ok, log := Run(inside);
      RunBalanced(arena.native, within, inside, log);
      Shut(scope);
      done := Done(!ok, Left(log));
    }

    method Open(scope: AssumptionScope) returns (r: Result<()>)
      requires Valid() && scope in scopes
      modifies scope, arena`frames, arena`epoch
      ensures Valid() && Grown()
      ensures r.Ok? <==> MayEnter(arena.native, old(Snapshot()), scope)
      ensures Snapshot() == if r.Ok? then Entered(old(Snapshot()), scope) else old(Snapshot())
    {
      r := scope.Enter();
      assert ClosedExprs() == old(ClosedExprs());
      assert EnteredScopes() == if r.Ok? then old(EnteredScopes()) + {scope} else old(EnteredScopes());
    }

    method Shut(scope: AssumptionScope)
      requires Valid() && scope in scopes && |arena.frames| > 1
      modifies scope, arena`frames, arena`epoch
      ensures Valid() && Grown()
      ensures Snapshot() == Exited(old(Snapshot()), scope)
    {
      scope.Exit();
      assert ClosedExprs() == old(ClosedExprs());
      assert EnteredScopes() == old(EnteredScopes()) - {scope};
    }
  }
}
