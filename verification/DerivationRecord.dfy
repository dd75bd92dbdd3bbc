/** Recording scalar derivations. While a session is active in an arena every result is
    observed as a step; handles carry the session and the step that recorded them, and
    only those count as inputs. Assumptions do not change here. */
module DerivationRecord {
  import opened Numerals

  /** What an expression denotes, by its canonical text. */
  type Value = string

  datatype Result<+T> = Ok(value: T) | Err

  /** The native library: what an operation gives, and which values can be exported. */
  datatype Native = Native(
    compute: (string, seq<Value>, string) -> Result<Value>,
    exportable: Value -> bool)

  /** One recorded step; its inputs are the numbers of steps, counted from one. */
  datatype Step = Step(operation: string, inputs: seq<nat>, literal: string, value: Value)

  // ---- Transcripts ---------------------------------------------------------

  /** How many inputs an operation takes; a function takes any number. */
  function Arity(operation: string, given: nat): int {
    if operation in {"integer", "exact", "rational", "symbol", "constant"} then 0
    else if operation in {"simplify", "expand", "cancel", "factor"} then 1
    else if operation in {"add", "subtract", "multiply", "divide", "power", "differentiate"} then 2
    else if operation == "substitute" then 3
    else if operation == "function" then given
    else -1
  }

  predicate EarlierThan(inputs: seq<nat>, k: nat) {
    forall j :: 0 <= j < |inputs| ==> 1 <= inputs[j] <= k
  }

  function ValuesAt(values: seq<Value>, inputs: seq<nat>): (r: seq<Value>)
    requires EarlierThan(inputs, |values|)
    ensures |r| == |inputs|
    ensures forall j :: 0 <= j < |inputs| ==> r[j] == values[inputs[j] - 1]
  {
    seq(|inputs|, j requires 0 <= j < |inputs| => values[inputs[j] - 1])
  }

  function ValuesOf(steps: seq<Step>): (values: seq<Value>)
    ensures |values| == |steps| && forall k :: 0 <= k < |steps| ==> values[k] == steps[k].value
  {
    seq(|steps|, k requires 0 <= k < |steps| => steps[k].value)
  }

  /** The step uses earlier steps only, and its value is what the operation gives there. */
  predicate RightStep(native: Native, steps: seq<Step>, k: nat)
    requires k < |steps|
  {
    && EarlierThan(steps[k].inputs, k)
    && var given := ValuesAt(ValuesOf(steps[..k]), steps[k].inputs);
       native.compute(steps[k].operation, given, steps[k].literal) == Ok(steps[k].value)
  }

  predicate RightTranscript(native: Native, steps: seq<Step>) {
    forall k :: 0 <= k < |steps| ==> RightStep(native, steps, k)
  }

  /** Runs the steps from nothing: the recorded values are not looked at. */
  function Replay(native: Native, steps: seq<Step>): (r: Result<seq<Value>>)
    ensures r.Ok? ==> |r.value| == |steps|
  {
    if steps == [] then Ok([])
    else
      var last := steps[|steps| - 1];
      match Replay(native, steps[..|steps| - 1])
      case Err => Err
      case Ok(values) =>
        if !EarlierThan(last.inputs, |values|) then Err
        else match native.compute(last.operation, ValuesAt(values, last.inputs), last.literal)
          case Err => Err
          case Ok(value) => Ok(values + [value])
  }

  /** Replaying a right transcript rebuilds every recorded value. */
  lemma {:induction false} ReplayRebuilds(native: Native, steps: seq<Step>)
    requires RightTranscript(native, steps)
    ensures Replay(native, steps) == Ok(ValuesOf(steps))
  {
    if steps != [] {
      var front, last := steps[..|steps| - 1], steps[|steps| - 1];
      forall k | 0 <= k < |front| ensures RightStep(native, front, k) {
        assert RightStep(native, steps, k) && front[..k] == steps[..k];
      }
      ReplayRebuilds(native, front);
      assert RightStep(native, steps, |front|);
      assert ValuesOf(steps) == ValuesOf(front) + [last.value];
    } else {
      assert ValuesOf(steps) == [];
    }
  }

  lemma OneMoreStep(native: Native, steps: seq<Step>, step: Step)
    requires RightTranscript(native, steps) && EarlierThan(step.inputs, |steps|)
    requires native.compute(step.operation, ValuesAt(ValuesOf(steps), step.inputs), step.literal) == Ok(step.value)
    ensures RightTranscript(native, steps + [step])
  {
    var more := steps + [step];
    forall k | 0 <= k < |more| ensures RightStep(native, more, k) {
      if k < |steps| {
        assert RightStep(native, steps, k) && more[..k] == steps[..k];
      } else {
        assert more[..k] == steps;
      }
    }
  }

  // ---- Sessions, expressions and arenas ------------------------------------

  class Derivation {
    const budget: nat
    var active: bool
    var steps: seq<Step>
    var failed: bool
    var source: Result<seq<Step>>

    constructor (budget: nat)
      ensures this.budget == budget && !active && source == Err
    {
      this.budget := budget;
      active, steps, failed, source := false, [], false, Err;
    }
  }

  class Expr {
    const value: Value
    var open: bool
    var recordOwner: Derivation?
    var recordStep: nat
    var simplifiedResult: Expr?
    var expandedResult: Expr?

    constructor (value: Value)
      ensures this.value == value && open && recordOwner == null
      ensures simplifiedResult == null && expandedResult == null
    {
      this.value := value;
      open, recordOwner, recordStep := true, null, 0;
      simplifiedResult, expandedResult := null, null;
    }
  }

  function Inputs(exprs: seq<Expr>): (values: seq<Value>)
    ensures |values| == |exprs| && forall k :: 0 <= k < |exprs| ==> values[k] == exprs[k].value
  {
    seq(|exprs|, k requires 0 <= k < |exprs| => exprs[k].value)
  }

  function Steps(exprs: seq<Expr>): (steps: seq<nat>)
    reads exprs
    ensures |steps| == |exprs| && forall k :: 0 <= k < |exprs| ==> steps[k] == exprs[k].recordStep
  {
    seq(|exprs|, k requires 0 <= k < |exprs| reads exprs => exprs[k].recordStep)
  }

  // ---- What recording does -------------------------------------------------

  /** The session and the step that a handle is marked with. */
  datatype Mark = Mark(owner: Derivation, step: nat)

  /** What decides about recording: the closed handles, the marks of the others, and the
      active session with its transcript. Beside them: the sessions that were entered so
      far, whether the active one was entered for the first time, and the handles that
      were marked since. */
  datatype Ledger = Ledger(
    closed: set<Expr>,
    marks: map<Expr, Mark>,
    active: Derivation?,
    steps: seq<Step>,
    failed: bool,
    entered: set<Derivation>,
    first: bool,
    marked: set<Expr>)

  const EMPTY := Ledger({}, map[], null, [], false, {}, false, {})

  /** The native lookup: the step exists, and holds the value. */
  predicate Found(steps: seq<Step>, value: Value, step: nat) {
    1 <= step <= |steps| && steps[step - 1].value == value
  }

  predicate Owned(ledger: Ledger, e: Expr) {
    e in ledger.marks && ledger.marks[e].owner == ledger.active
  }

  predicate AllOwned(ledger: Ledger, exprs: seq<Expr>) {
    forall k :: 0 <= k < |exprs| ==> Owned(ledger, exprs[k])
  }

  /** What the native transcript takes besides the inputs. */
  predicate Takes(
    native: Native, steps: seq<Step>, budget: nat, operation: string, given: nat, literal: string, value: Value)
  {
    && Arity(operation, given) == given
    && (operation == "symbol" ==>
          forall step :: step in steps && step.operation == "symbol" ==> step.literal != literal)
    && |steps| < budget && native.exportable(value)
  }

  /** The inputs are marked by the active session and found in its transcript, which is
      not spoilt and takes the operation. */
  predicate CanRecord(
    native: Native, ledger: Ledger, operation: string, inputs: seq<Expr>, literal: string, value: Value)
  {
    && ledger.active != null && !ledger.failed && AllOwned(ledger, inputs)
    && (forall k :: 0 <= k < |inputs| ==> Found(ledger.steps, inputs[k].value, ledger.marks[inputs[k]].step))
    && Takes(native, ledger.steps, ledger.active.budget, operation, |inputs|, literal, value)
  }

  predicate AllOpen(ledger: Ledger, exprs: seq<Expr>) {
    forall k :: 0 <= k < |exprs| ==> exprs[k] !in ledger.closed
  }

  function StepsOf(marks: map<Expr, Mark>, exprs: seq<Expr>): (steps: seq<nat>)
    requires forall k :: 0 <= k < |exprs| ==> exprs[k] in marks
    ensures |steps| == |exprs| && forall k :: 0 <= k < |exprs| ==> steps[k] == marks[exprs[k]].step
  {
    seq(|exprs|, k requires 0 <= k < |exprs| => marks[exprs[k]].step)
  }

  /** One more step, and its output is marked with it. */
  function Recorded(ledger: Ledger, operation: string, inputs: seq<Expr>, literal: string, output: Expr): Ledger
    requires ledger.active != null && AllOwned(ledger, inputs)
  {
    var step := Step(operation, StepsOf(ledger.marks, inputs), literal, output.value);
    ledger.(steps := ledger.steps + [step], marked := ledger.marked + {output},
            marks := ledger.marks[output := Mark(ledger.active, |ledger.steps| + 1)])
  }

  /** A closed handle loses its mark. */
  function Released(ledger: Ledger, e: Expr): Ledger {
    ledger.(closed := ledger.closed + {e}, marks := ledger.marks - {e}, marked := ledger.marked - {e})
  }

  /** A session starts with an empty transcript; the marks stay. */
  function Begun(ledger: Ledger, d: Derivation): Ledger {
    ledger.(active := d, steps := [], failed := false, marked := {},
            first := d !in ledger.entered, entered := ledger.entered + {d})
  }

  function Finished(ledger: Ledger): Ledger {
    ledger.(active := null, steps := [], failed := false)
  }

  // ---- What recording keeps ------------------------------------------------

  /** The transcript is right; every handle marked since the session was entered has its
      value at the step of its mark; and those are all that a session owns which had not
      been entered before. */
  predicate InOrder(native: Native, ledger: Ledger) {
    && (forall e :: e in ledger.marks ==> ledger.marks[e].owner in ledger.entered)
    && (ledger.active != null ==> ledger.active in ledger.entered && Sound(native, ledger))
  }

  predicate Sound(native: Native, ledger: Ledger) {
    && RightTranscript(native, ledger.steps)
    && (forall e :: e in ledger.marked ==>
          Owned(ledger, e) && Found(ledger.steps, e.value, ledger.marks[e].step))
    && (ledger.first ==> forall e :: e in ledger.marks && Owned(ledger, e) ==> e in ledger.marked)
  }

  /** A recorded step keeps the transcript right. */
  lemma RecordedRight(
    native: Native, ledger: Ledger, operation: string, inputs: seq<Expr>, literal: string, output: Expr)
    requires RightTranscript(native, ledger.steps)
    requires CanRecord(native, ledger, operation, inputs, literal, output.value)
    requires native.compute(operation, Inputs(inputs), literal) == Ok(output.value)
    ensures RightTranscript(native, Recorded(ledger, operation, inputs, literal, output).steps)
  {
    var steps := StepsOf(ledger.marks, inputs);
    forall k | 0 <= k < |inputs| ensures 1 <= steps[k] <= |ledger.steps| {
      assert Found(ledger.steps, inputs[k].value, ledger.marks[inputs[k]].step);
    }
    assert ValuesAt(ValuesOf(ledger.steps), steps) == Inputs(inputs);
    OneMoreStep(native, ledger.steps, Step(operation, steps, literal, output.value));
  }

  lemma RecordedInOrder(
    native: Native, ledger: Ledger, operation: string, inputs: seq<Expr>, literal: string, output: Expr)
    requires InOrder(native, ledger) && CanRecord(native, ledger, operation, inputs, literal, output.value)
    requires native.compute(operation, Inputs(inputs), literal) == Ok(output.value)
    ensures InOrder(native, Recorded(ledger, operation, inputs, literal, output))
  {
    RecordedRight(native, ledger, operation, inputs, literal, output);
  }

  lemma ReleasedInOrder(native: Native, ledger: Ledger, e: Expr)
    requires InOrder(native, ledger)
    ensures InOrder(native, Released(ledger, e))
  {}

  lemma BegunInOrder(native: Native, ledger: Ledger, d: Derivation)
    requires InOrder(native, ledger) && ledger.active == null
    ensures InOrder(native, Begun(ledger, d))
  {}

  /** The replayed transcript has, at the step of the handle's mark, its value. */
  predicate Rebuilt(native: Native, ledger: Ledger, e: Expr)
    requires e in ledger.marks
  {
    match Replay(native, ledger.steps)
    case Ok(values) => 1 <= ledger.marks[e].step <= |values| && values[ledger.marks[e].step - 1] == e.value
    case Err => false
  }

  /** Replaying rebuilds a handle that the session owns exactly when the native lookup
      finds it: always, if it was marked since the session was entered, which is every
      handle it owns when it had not been entered before; and never, if its mark points
      past the transcript. */
  lemma OwnedRebuilt(native: Native, ledger: Ledger, e: Expr)
    requires InOrder(native, ledger) && ledger.active != null && Owned(ledger, e)
    ensures Rebuilt(native, ledger, e) <==> Found(ledger.steps, e.value, ledger.marks[e].step)
    ensures ledger.first || e in ledger.marked ==> Rebuilt(native, ledger, e)
    ensures ledger.marks[e].step > |ledger.steps| ==> !Rebuilt(native, ledger, e)
  {
    ReplayRebuilds(native, ledger.steps);
  }

  // ---- What came of an operation -------------------------------------------

  /** On open inputs that give a value: outside sessions nothing is recorded; otherwise a
      step is recorded, or the session is spoilt if that cannot be done. */
  predicate Observed(
    native: Native, before: Ledger, after: Ledger, operation: string, inputs: seq<Expr>, literal: string,
    value: Value, r: Result<Expr>)
  {
    if before.active == null then r.Ok? && after == before
    else if CanRecord(native, before, operation, inputs, literal, value)
    then r.Ok? && after == Recorded(before, operation, inputs, literal, r.value)
    else r == Err && after == before.(failed := true)
  }

  /** An operation that makes a new handle, which must be open and hold the value. */
  predicate Produced(
    native: Native, before: Ledger, after: Ledger, operation: string, inputs: seq<Expr>, literal: string,
    r: Result<Expr>)
  {
    match native.compute(operation, Inputs(inputs), literal)
    case Err => r == Err && after == before
    case Ok(value) =>
      if !AllOpen(before, inputs) then r == Err && after == before
      else Observed(native, before, after, operation, inputs, literal, value, r) && Holds(before, value, r)
  }

  /** A result is open, and holds the value. */
  predicate Holds(before: Ledger, value: Value, r: Result<Expr>) {
    r.Ok? ==> r.value.value == value && r.value !in before.closed
  }

  /** A small integer: a new one is kept when it could be recorded; a kept one is returned
      as it is, or recorded first when it carries no mark of the active session, which is
      refused without harm when it is closed. */
  predicate Coerced(
    native: Native, before: Ledger, after: Ledger, kept: map<int, Expr>, keptAfter: map<int, Expr>, n: int,
    r: Result<Expr>)
    requires -10 <= n <= 10
  {
    if n !in kept then
      && keptAfter == (if r.Ok? then kept[n := r.value] else kept)
      && Produced(native, before, after, "integer", [], Shown(n), r)
    else
      && keptAfter == kept && (r.Ok? ==> r.value == kept[n])
      && (if before.active == null || Owned(before, kept[n]) then r.Ok? && after == before
          else if kept[n] in before.closed then r == Err && after == before
          else Observed(native, before, after, "integer", [], Shown(n), kept[n].value, r))
  }

  // ---- The arena -----------------------------------------------------------

  class Arena {
    const native: Native
    var derivation: Derivation?
    var integerCache: map<int, Expr>
    ghost var exprs: set<Expr>
    ghost var ledger: Ledger

    constructor (native: Native)
      ensures this.native == native && derivation == null && exprs == {} && integerCache == map[]
      ensures Valid() && ledger == EMPTY
    {
      this.native := native;
      derivation, integerCache, exprs, ledger := null, map[], {}, EMPTY;
    }

    /** The active session, if any. */
    ghost function Active(): set<Derivation>
      reads this
    {
      if derivation == null then {} else {derivation}
    }

    /** The ledger has the handle's mark, and knows whether it is open. */
    ghost predicate Listed(e: Expr)
      reads this, e
    {
      && (e.open <==> e !in ledger.closed)
      && (if e.recordOwner == null then e !in ledger.marks
          else e in ledger.marks && ledger.marks[e] == Mark(e.recordOwner, e.recordStep))
    }

    ghost predicate CacheRight(e: Expr, operation: string, result: Expr?)
      reads this, e
    {
      result != null ==> e.open && result in exprs && native.compute(operation, [e.value], "") == Ok(result.value)
    }

    ghost predicate ExprRight(e: Expr)
      reads this, e
    {
      && Listed(e)
      && CacheRight(e, "simplify", e.simplifiedResult) && CacheRight(e, "expand", e.expandedResult)
    }

    ghost predicate IntegersRight()
      reads this
    {
      forall n :: n in integerCache ==>
        && -10 <= n <= 10 && integerCache[n] in exprs
        && native.compute("integer", [], Shown(n)) == Ok(integerCache[n].value)
    }

    /** The ledger has the active session and its transcript. */
    ghost predicate Booked()
      reads this, Active()
    {
      && ledger.active == derivation
      && (if derivation == null then ledger.steps == [] && !ledger.failed
          else derivation.active && derivation.steps == ledger.steps && derivation.failed == ledger.failed)
    }

    ghost predicate Valid()
      reads this, exprs, Active()
    {
      && (forall e :: e in exprs ==> ExprRight(e))
      && ledger.closed <= exprs && ledger.marks.Keys <= exprs
      && IntegersRight() && Booked()
    }

    /** `observe`: records a step, or refuses and spoils the session. A handle marked by
        another session, or by none, is no input. */
    method Observe(operation: string, inputs: seq<Expr>, output: Expr, literal: string) returns (ok: bool)
      requires Valid() && derivation != null && output in exprs
      requires forall e :: e in inputs ==> e in exprs
      requires native.compute(operation, Inputs(inputs), literal) == Ok(output.value)
      modifies derivation`failed, derivation`steps, output`recordOwner, output`recordStep, this`ledger
      ensures Valid()
      ensures ok <==> output.open && CanRecord(native, old(ledger), operation, inputs, literal, output.value)
      ensures ok ==> ledger == Recorded(old(ledger), operation, inputs, literal, output)
      ensures !ok && (output.open || !AllOwned(old(ledger), inputs)) ==> ledger == old(ledger).(failed := true)
      ensures !ok && !output.open && AllOwned(old(ledger), inputs) ==> ledger == old(ledger)
    {
      for k := 0 to |inputs|
        invariant forall j :: 0 <= j < k ==> Owned(ledger, inputs[j])
      {
        assert ExprRight(inputs[k]);
        if inputs[k].recordOwner != derivation {
          Spoil();
          return false;
        }
      }
      if !output.open {
        return false;
      }
      for k := 0 to |inputs|
        invariant forall j :: 0 <= j < k ==> Found(ledger.steps, inputs[j].value, ledger.marks[inputs[j]].step)
      {
        assert ExprRight(inputs[k]);
        if !Found(derivation.steps, inputs[k].value, inputs[k].recordStep) {
          Spoil();
          return false;
        }
      }
      var steps, budget := derivation.steps, derivation.budget;
      if derivation.failed || !Takes(native, steps, budget, operation, |inputs|, literal, output.value) {
        Spoil();
        return false;
      }
      Append(operation, inputs, output, literal);
      return true;
    }

    method Spoil()
      requires Valid() && derivation != null
      modifies derivation`failed, this`ledger
      ensures Valid() && ledger == old(ledger).(failed := true)
    {
      derivation.failed := true;
      ledger := ledger.(failed := true);
    }

    method Append(operation: string, inputs: seq<Expr>, output: Expr, literal: string)
      requires Valid() && derivation != null && output in exprs && AllOwned(ledger, inputs)
      requires forall e :: e in inputs ==> e in exprs
      modifies derivation`steps, output`recordOwner, output`recordStep, this`ledger
      ensures Valid()
      ensures ledger == Recorded(old(ledger), operation, inputs, literal, output)
    {
      assert forall e :: e in inputs ==> ExprRight(e);
      assert Steps(inputs) == StepsOf(ledger.marks, inputs);
      derivation.steps := derivation.steps + [Step(operation, Steps(inputs), literal, output.value)];
      output.recordOwner := derivation;
      output.recordStep := |derivation.steps|;
      ledger := Recorded(ledger, operation, inputs, literal, output);
    }

    /** `_result`: a fresh handle on what the operation gives, recorded when a session is
        active; an operation that cannot be recorded spoils the session. */
    method Produce(operation: string, inputs: seq<Expr>, literal: string) returns (r: Result<Expr>)
      requires Valid() && forall e :: e in inputs ==> e in exprs
      modifies Active()`steps, Active()`failed, this`exprs, this`ledger
      ensures Valid() && old(exprs) <= exprs && fresh(exprs - old(exprs))
      ensures Produced(native, old(ledger), ledger, operation, inputs, literal, r)
      ensures r.Ok? ==> fresh(r.value) && r.value in exprs
      ensures r.Ok? ==> forall e :: e in inputs ==> e.open
    {
      for k := 0 to |inputs|
        invariant forall j :: 0 <= j < k ==> inputs[j].open
      {
        assert ExprRight(inputs[k]);
        if !inputs[k].open {
          return Err;
        }
      }
      var computed := native.compute(operation, Inputs(inputs), literal);
      if computed.Err? {
        return Err;
      }
      var output := Join(computed.value);
      assert forall e :: e in inputs ==> ExprRight(e);
      if derivation != null {
        var recorded := Observe(operation, inputs, output, literal);
        if !recorded {
          return Err;
        }
      }
      return Ok(output);
    }

    method Join(value: Value) returns (output: Expr)
      requires Valid()
      modifies this`exprs
      ensures Valid() && fresh(output) && exprs == old(exprs) + {output} && output.value == value && output.open
    {
      output := new Expr(value);
      exprs := exprs + {output};
    }

    /** A result held by a handle is used again, and recorded again. */
    method Reuse(operation: string, e: Expr, cached: Expr) returns (r: Result<Expr>)
      requires Valid() && e in exprs && e.open && cached in exprs && cached.open
      requires native.compute(operation, [e.value], "") == Ok(cached.value)
      modifies Active()`steps, Active()`failed, cached`recordOwner, cached`recordStep, this`ledger
      ensures Valid()
      ensures Produced(native, old(ledger), ledger, operation, [e], "", r)
      ensures r.Ok? ==> r.value == cached
    {
      assert Inputs([e]) == [e.value] && ExprRight(e) && ExprRight(cached);
      if derivation != null {
        var recorded := Observe(operation, [e], cached, "");
        if !recorded {
          return Err;
        }
      }
      return Ok(cached);
    }

    method Simplify(e: Expr) returns (r: Result<Expr>)
      requires Valid() && e in exprs
      modifies Active()`steps, Active()`failed, this`exprs, this`ledger, exprs
      ensures Valid() && old(exprs) <= exprs && fresh(exprs - old(exprs))
      ensures Produced(native, old(ledger), ledger, "simplify", [e], "", r)
      ensures r.Ok? ==> r.value in exprs
    {
      assert ExprRight(e);
      var cached := e.simplifiedResult;
      if cached != null && cached.open {
        r := Reuse("simplify", e, cached);
      } else {
        r := SimplifyAfresh(e);
      }
    }

    method SimplifyAfresh(e: Expr) returns (r: Result<Expr>)
      requires Valid() && e in exprs
      modifies Active()`steps, Active()`failed, this`exprs, this`ledger, e
      ensures Valid() && old(exprs) <= exprs && fresh(exprs - old(exprs))
      ensures Produced(native, old(ledger), ledger, "simplify", [e], "", r)
      ensures r.Ok? ==> r.value in exprs
    {
      HoldSimplified(e, null);
      r := Once("simplify", e);
      if r.Ok? {
        HoldSimplified(e, r.value);
      }
    }

    method Expand(e: Expr) returns (r: Result<Expr>)
      requires Valid() && e in exprs
      modifies Active()`steps, Active()`failed, this`exprs, this`ledger, exprs
      ensures Valid() && old(exprs) <= exprs && fresh(exprs - old(exprs))
      ensures Produced(native, old(ledger), ledger, "expand", [e], "", r)
      ensures r.Ok? ==> r.value in exprs
    {
      assert ExprRight(e);
      var cached := e.expandedResult;
      if cached != null && cached.open {
        r := Reuse("expand", e, cached);
      } else {
        r := ExpandAfresh(e);
      }
    }

    method ExpandAfresh(e: Expr) returns (r: Result<Expr>)
      requires Valid() && e in exprs
      modifies Active()`steps, Active()`failed, this`exprs, this`ledger, e
      ensures Valid() && old(exprs) <= exprs && fresh(exprs - old(exprs))
      ensures Produced(native, old(ledger), ledger, "expand", [e], "", r)
      ensures r.Ok? ==> r.value in exprs
    {
      HoldExpanded(e, null);
      r := Once("expand", e);
      if r.Ok? {
        HoldExpanded(e, r.value);
      }
    }

    method HoldSimplified(e: Expr, result: Expr?)
      requires Valid() && e in exprs && CacheRight(e, "simplify", result)
      modifies e`simplifiedResult
      ensures Valid()
    {
      e.simplifiedResult := result;
    }

    method HoldExpanded(e: Expr, result: Expr?)
      requires Valid() && e in exprs && CacheRight(e, "expand", result)
      modifies e`expandedResult
      ensures Valid()
    {
      e.expandedResult := result;
    }

    /** The operation on one handle, without a kept result. */
    method Once(operation: string, e: Expr) returns (r: Result<Expr>)
      requires Valid() && e in exprs
      modifies Active()`steps, Active()`failed, this`exprs, this`ledger
      ensures Valid() && old(exprs) <= exprs && fresh(exprs - old(exprs))
      ensures Produced(native, old(ledger), ledger, operation, [e], "", r)
      ensures r.Ok? ==> r.value in exprs
      ensures r.Ok? ==> e.open && native.compute(operation, [e.value], "") == Ok(r.value.value)
    {
      assert Inputs([e]) == [e.value] && [e][0] == e && ExprRight(e);
      r := Produce(operation, [e], "");
    }

    /** A Python integer used as an operand: the small ones are kept, and recorded again
        when the mark they carry is not the active session's. */
    method CoerceSmall(n: int) returns (r: Result<Expr>)
      requires Valid() && -10 <= n <= 10
      modifies Active()`steps, Active()`failed, this`exprs, this`ledger, this`integerCache, exprs
      ensures Valid() && old(exprs) <= exprs && fresh(exprs - old(exprs))
      ensures Coerced(native, old(ledger), ledger, old(integerCache), integerCache, n, r)
      ensures r.Ok? ==> r.value in exprs && native.compute("integer", [], Shown(n)) == Ok(r.value.value)
    {
      assert Inputs([]) == [];
      if n !in integerCache {
        r := Produce("integer", [], Shown(n));
        if r.Ok? {
          integerCache := integerCache[n := r.value];
        }
        return;
      }
      var cached := integerCache[n];
      assert ExprRight(cached);
      if derivation != null && cached.recordOwner != derivation {
        var recorded := Observe("integer", [], cached, Shown(n));
        if !recorded {
          return Err;
        }
      }
      return Ok(cached);
    }

    /** Releases a handle: its mark goes with it, and the results it held. */
    method Close(e: Expr)
      requires Valid() && e in exprs
      modifies e, this`ledger
      ensures Valid() && ledger == Released(old(ledger), e)
    {
      e.open := false;
      e.simplifiedResult, e.expandedResult := null, null;
      e.recordOwner := null;
      ledger := Released(ledger, e);
    }

    // ---- Entering and leaving ----------------------------------------------

    /** One session at a time; its transcript starts empty. */
    method Enter(d: Derivation) returns (ok: bool)
      requires Valid() && (d.active ==> derivation == d)
      modifies this`derivation, this`ledger, d
      ensures Valid()
      ensures ok <==> old(derivation) == null && d.budget <= 100000
      ensures ledger == if ok then Begun(old(ledger), d) else old(ledger)
      ensures d.active == (ok || old(d.active)) && d.source == old(d.source)
    {
      if derivation != null || d.budget > 100000 {
        return false;
      }
      d.steps, d.failed, d.active := [], false, true;
      derivation := d;
      ledger := Begun(ledger, d);
      return true;
    }

    /** The transcript so far, unless the session is spoilt; after the session, the one
        it completed with. */
    method Export(d: Derivation) returns (r: Result<seq<Step>>)
      requires Valid() && (d.active ==> derivation == d)
      ensures !d.active ==> r == d.source
      ensures d.active ==> r == if ledger.failed then Err else Ok(ledger.steps)
    {
      if !d.active {
        return d.source;
      }
      r := if d.failed then Err else Ok(d.steps);
    }

    /** Leaving without an exception completes the session with its transcript. */
    method Exit(raised: bool) returns (ok: bool)
      requires Valid() && derivation != null
      modifies this`derivation, this`ledger, derivation
      ensures Valid() && !old(derivation).active
      ensures ledger == Finished(old(ledger))
      ensures ok <==> raised || !old(ledger).failed
      ensures old(derivation).source == if !raised && ok then Ok(old(ledger).steps) else old(derivation.source)
    {
      var d := derivation;
      ok := true;
      if !raised {
        var exported := Export(d);
        if exported.Ok? {
          d.source := exported;
        } else {
          ok := false;
        }
      }
      derivation := null;
      d.active := false;
      ledger := Finished(ledger);
    }
  }
}
