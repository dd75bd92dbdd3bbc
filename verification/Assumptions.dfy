/** Assumption scopes and the result caches of expressions. An arena counts its
    context changes; a cached result is used only while the count is the one it was
    computed under. No recording session is active here. */
module Assumptions {

  /** What an expression handle denotes, by its canonical text. */
  type Value = string

  datatype Fact = Known(expression: Value, fact: int) | Relation(relation: Value)

  /** The facts of each open scope, outermost first; the last scope takes new facts. */
  type Context = seq<seq<Fact>>

  datatype Operation = Simplify | Expand | Complex(name: string)

  datatype Result<+T> = Ok(value: T) | Err(error: Error)

  datatype Error = ExpressionClosed | ForeignExpression | NativeRefusal

  /** The native library: what it computes, and which facts and scopes it takes,
      depends on nothing but its arguments and the context. */
  datatype Native = Native(
    compute: (Operation, Value, Context) -> Result<Value>,
    accepts: (Fact, Context) -> bool,
    canPush: Context -> bool)

  class Expr {
    const arena: Arena
    const value: Value
    const borrowed: bool
    var open: bool
    var cleanupNeeded: bool
    var simplifiedResult: Expr?
    var simplifiedEpoch: int
    var expandedResult: Expr?
    var expandedEpoch: int
    var complexResults: map<string, (int, Expr)>

    constructor (arena: Arena, value: Value, borrowed: bool)
      ensures this.arena == arena && this.value == value && this.borrowed == borrowed
      ensures open && !HasCaches()
    {
      this.arena, this.value, this.borrowed := arena, value, borrowed;
      open, cleanupNeeded := true, false;
      simplifiedResult, simplifiedEpoch := null, -1;
      expandedResult, expandedEpoch := null, -1;
      complexResults := map[];
    }

    predicate HasCaches()
      reads this
    {
      simplifiedResult != null || expandedResult != null || complexResults != map[]
    }

    /** The cached result is right as long as its epoch is the arena's. */
    ghost predicate Right(operation: Operation, result: Expr, epoch: int)
      reads arena
    {
      && result in arena.exprs
      && epoch <= arena.epoch
      && (epoch == arena.epoch ==> arena.native.compute(operation, value, arena.frames) == Ok(result.value))
    }

    /** Closed expressions hold no results, and `close` is told of those held. */
    ghost predicate Coherent()
      reads this, arena
    {
      && (simplifiedResult != null ==> Right(Simplify, simplifiedResult, simplifiedEpoch))
      && (expandedResult != null ==> Right(Expand, expandedResult, expandedEpoch))
      && (forall name :: name in complexResults ==>
            Right(Complex(name), complexResults[name].1, complexResults[name].0))
      && (HasCaches() ==> open && cleanupNeeded)
    }

    /** `arena._result`: a fresh handle on what the native library computes. */
    method Compute(operation: Operation) returns (r: Result<Expr>)
      requires arena.Valid() && this in arena.exprs
      modifies arena`exprs
      ensures arena.Valid() && old(arena.exprs) <= arena.exprs
      ensures !open ==> r == Err(ExpressionClosed)
      ensures open ==> Answers(operation, r)
      ensures r.Ok? ==> fresh(r.value) && r.value.open && arena.exprs == old(arena.exprs) + {r.value}
      ensures r.Err? ==> arena.exprs == old(arena.exprs)
    {
      if !open {
        return Err(ExpressionClosed);
      }
      match arena.native.compute(operation, value, arena.frames)
      case Err(error) => r := Err(error);
      case Ok(output) =>
        var result := new Expr(arena, output, false);
        arena.exprs := arena.exprs + {result};
        r := Ok(result);
    }

    /** The answer is an open handle on a fresh computation in the present context,
        or that computation's refusal. */
    ghost predicate Answers(operation: Operation, r: Result<Expr>)
      reads arena, if r.Ok? then {r.value} else {}
    {
      match r
      case Ok(result) =>
        result in arena.exprs && result.open && arena.native.compute(operation, value, arena.frames) == Ok(result.value)
      case Err(error) => arena.native.compute(operation, value, arena.frames) == Err(error)
    }

    /** The result stored is open and of the present epoch. */
    ghost predicate UsableSimplified()
      reads this, arena, simplifiedResult
    {
      simplifiedResult != null && simplifiedResult.open && simplifiedEpoch == arena.epoch
    }

    ghost predicate UsableExpanded()
      reads this, arena, expandedResult
    {
      expandedResult != null && expandedResult.open && expandedEpoch == arena.epoch
    }

    ghost predicate UsableComplex(name: string)
      reads this, arena, if name in complexResults then {complexResults[name].1} else {}
    {
      name in complexResults && complexResults[name].1.open && complexResults[name].0 == arena.epoch
    }

    method Simplified() returns (r: Result<Expr>)
      requires arena.Valid() && this in arena.exprs
      modifies this, arena`exprs
      ensures arena.Valid() && old(arena.exprs) <= arena.exprs && fresh(arena.exprs - old(arena.exprs))
      ensures open == old(open) && forall e :: e in arena.exprs - old(arena.exprs) ==> e.open
      ensures !open ==> r == Err(ExpressionClosed)
      ensures open ==> Answers(Simplify, r)
      ensures r.Ok? ==> simplifiedResult == r.value && simplifiedEpoch == arena.epoch
      ensures old(UsableSimplified()) ==> r.Ok? && r.value == old(simplifiedResult) && arena.exprs == old(arena.exprs)
    {
      var cached := simplifiedResult;
      if cached != null && cached.open && simplifiedEpoch == arena.epoch {
        return Ok(cached);
      }
      simplifiedResult := null;
      r := Compute(Simplify);
      if r.Ok? {
        simplifiedResult := r.value;
        cleanupNeeded := true;
        simplifiedEpoch := arena.epoch;
      }
    }

    method Expanded() returns (r: Result<Expr>)
      requires arena.Valid() && this in arena.exprs
      modifies this, arena`exprs
      ensures arena.Valid() && old(arena.exprs) <= arena.exprs && fresh(arena.exprs - old(arena.exprs))
      ensures open == old(open) && forall e :: e in arena.exprs - old(arena.exprs) ==> e.open
      ensures !open ==> r == Err(ExpressionClosed)
      ensures open ==> Answers(Expand, r)
      ensures r.Ok? ==> expandedResult == r.value && expandedEpoch == arena.epoch
      ensures old(UsableExpanded()) ==> r.Ok? && r.value == old(expandedResult) && arena.exprs == old(arena.exprs)
    {
      var cached := expandedResult;
      if cached != null && cached.open && expandedEpoch == arena.epoch {
        return Ok(cached);
      }
      expandedResult := null;
      r := Compute(Expand);
      if r.Ok? {
        expandedResult := r.value;
        cleanupNeeded := true;
        expandedEpoch := arena.epoch;
      }
    }

    method ComplexOperation(name: string) returns (r: Result<Expr>)
      requires arena.Valid() && this in arena.exprs
      modifies this, arena`exprs
      ensures arena.Valid() && old(arena.exprs) <= arena.exprs && fresh(arena.exprs - old(arena.exprs))
      ensures open == old(open) && forall e :: e in arena.exprs - old(arena.exprs) ==> e.open
      ensures !open ==> r == Err(ExpressionClosed)
      ensures open ==> Answers(Complex(name), r)
      ensures r.Ok? ==> name in complexResults && complexResults[name] == (arena.epoch as int, r.value)
      ensures old(UsableComplex(name)) ==>
                r.Ok? && r.value == old(complexResults)[name].1 && arena.exprs == old(arena.exprs)
    {
      if name in complexResults {
        var cached := complexResults[name];
        if cached.0 == arena.epoch && cached.1.open {
          return Ok(cached.1);
        }
      }
      r := Compute(Complex(name));
      if r.Ok? {
        complexResults := complexResults[name := (arena.epoch, r.value)];
        cleanupNeeded := true;
      }
    }

    /** Whichever of these operations. */
    method Perform(operation: Operation) returns (r: Result<Expr>)
      requires arena.Valid() && this in arena.exprs
      modifies this, arena`exprs
      ensures arena.Valid() && old(arena.exprs) <= arena.exprs && fresh(arena.exprs - old(arena.exprs))
      ensures open == old(open) && forall e :: e in arena.exprs - old(arena.exprs) ==> e.open
      ensures !open ==> r == Err(ExpressionClosed)
      ensures open ==> Answers(operation, r)
    {
      match operation {
        case Simplify => r := Simplified();
        case Expand => r := Expanded();
        case Complex(name) => r := ComplexOperation(name);
      }
    }

    /** Releases the handle; the results it holds are dropped, not closed. */
    method Close()
      requires arena.Valid() && this in arena.exprs
      modifies this
      ensures arena.Valid()
      ensures if borrowed then open == old(open) else !open && !HasCaches()
    {
      if borrowed || !open {
        return;
      }
      if !cleanupNeeded {
        open := false;
        return;
      }
      simplifiedResult, expandedResult, complexResults := null, null, map[];
      open := false;
    }
  }

  class Arena {
    const native: Native
    var frames: Context
    var epoch: nat
    ghost var exprs: set<Expr>

    constructor (native: Native)
      ensures this.native == native && frames == [[]] && epoch == 0 && exprs == {}
      ensures Valid()
    {
      this.native := native;
      frames, epoch, exprs := [[]], 0, {};
    }

    ghost predicate Valid()
      reads this, exprs
    {
      && frames != []
      && (forall e :: e in exprs ==> e.arena == this && e.Coherent())
    }

    /** A new expression of this arena, as its constructors return. */
    method NewExpression(value: Value, borrowed: bool) returns (e: Expr)
      requires Valid()
      modifies this`exprs
      ensures Valid() && fresh(e) && exprs == old(exprs) + {e}
      ensures e.arena == this && e.open && e.value == value && e.borrowed == borrowed
    {
      e := new Expr(this, value, borrowed);
      exprs := exprs + {e};
    }

    /** `_check`. */
    predicate Owns(e: Expr)
      reads e
    {
      e.arena == this && e.open
    }

    function Refusal(e: Expr): Error {
      if e.arena != this then ForeignExpression else ExpressionClosed
    }

    /** `assume` and `assume_relation`: on success the innermost scope has the fact. */
    method AssumeFact(e: Expr, fact: Fact) returns (r: Result<()>)
      requires Valid()
      modifies this`frames, this`epoch
      ensures Valid()
      ensures r.Ok? <==> e.arena == this && e.open && native.accepts(fact, old(frames))
      ensures r.Ok? ==> frames == WithFact(old(frames), fact) && epoch == old(epoch) + 1
      ensures r.Err? ==> frames == old(frames) && epoch == old(epoch)
      ensures r.Err? ==>
                r == Err(if e.arena != this then ForeignExpression
                         else if !e.open then ExpressionClosed else NativeRefusal)
    {
      if !Owns(e) {
        return Err(Refusal(e));
      }
      if !native.accepts(fact, frames) {
        return Err(NativeRefusal);
      }
      frames := WithFact(frames, fact);
      epoch := epoch + 1;
      return Ok(());
    }

    method Push() returns (r: Result<()>)
      requires Valid()
      modifies this`frames, this`epoch
      ensures Valid()
      ensures r.Ok? <==> native.canPush(old(frames))
      ensures r.Ok? ==> frames == old(frames) + [[]] && epoch == old(epoch) + 1
      ensures r.Err? ==> frames == old(frames) && epoch == old(epoch) && r == Err(NativeRefusal)
    {
      if !native.canPush(frames) {
        return Err(NativeRefusal);
      }
      frames := frames + [[]];
      epoch := epoch + 1;
      return Ok(());
    }

    method Pop()
      requires Valid() && |frames| > 1
      modifies this`frames, this`epoch
      ensures Valid()
      ensures frames == old(frames)[..|old(frames)| - 1] && epoch == old(epoch) + 1
    {
      frames := frames[..|frames| - 1];
      epoch := epoch + 1;
    }
  }

  function WithFact(frames: Context, fact: Fact): Context
    requires frames != []
  {
    var top := |frames| - 1;
    frames[top := frames[top] + [fact]]
  }

  /** The facts given to `assuming`: an expression and what is assumed of it. */
  datatype Assumption = Assumption(expression: Expr, fact: Fact)

  function FactsOf(assumptions: seq<Assumption>): (facts: seq<Fact>)
    ensures |facts| == |assumptions| && forall k :: 0 <= k < |facts| ==> facts[k] == assumptions[k].fact
  {
    seq(|assumptions|, k requires 0 <= k < |assumptions| => assumptions[k].fact)
  }

  /** Each fact is accepted in a new scope that holds those before it. */
  ghost predicate AcceptsAll(native: Native, outer: Context, facts: seq<Fact>) {
    forall k :: 0 <= k < |facts| ==> native.accepts(facts[k], outer + [facts[..k]])
  }

  class AssumptionScope {
    const arena: Arena
    const facts: seq<Assumption>
    var entered: bool

    constructor (arena: Arena, facts: seq<Assumption>)
      ensures this.arena == arena && this.facts == facts && !entered
    {
      this.arena, this.facts := arena, facts;
      entered := false;
    }

    /** All facts are about open expressions of the arena, and the native library takes
        the scope and then each fact after those before it. */
    ghost predicate CanEnter()
      reads arena, set a | a in facts :: a.expression
    {
      && (forall k :: 0 <= k < |facts| ==> facts[k].expression.arena == arena && facts[k].expression.open)
      && arena.native.canPush(arena.frames) && AcceptsAll(arena.native, arena.frames, FactsOf(facts))
    }

    /** The first fact that is not about an open expression of the arena. */
    ghost predicate FirstRefused(k: nat)
      requires k < |facts|
      reads set a | a in facts :: a.expression
    {
      && !(facts[k].expression.arena == arena && facts[k].expression.open)
      && forall j :: 0 <= j < k ==> facts[j].expression.arena == arena && facts[j].expression.open
    }

    /** All the facts in a new scope, or none of them and the context as before. A scope
        that is entered already is entered again. */
    method Enter() returns (r: Result<()>)
      requires arena.Valid()
      modifies this, arena`frames, arena`epoch
      ensures arena.Valid() && old(arena.epoch) <= arena.epoch
      ensures r.Ok? <==> old(CanEnter())
      ensures r.Ok? ==> entered && arena.frames == old(arena.frames) + [FactsOf(facts)]
      ensures r.Err? ==> entered == old(entered) && arena.frames == old(arena.frames)
      ensures forall k | 0 <= k < |facts| && FirstRefused(k) ::
                r == Err(if facts[k].expression.arena != arena then ForeignExpression else ExpressionClosed)
      ensures r.Err? && (forall k :: 0 <= k < |facts| ==> !FirstRefused(k)) ==> r.error == NativeRefusal
    {
      for k := 0 to |facts|
        invariant forall j :: 0 <= j < k ==> arena.Owns(facts[j].expression)
      {
        if !arena.Owns(facts[k].expression) {
          return Err(arena.Refusal(facts[k].expression));
        }
      }
      r := arena.Push();
      if r.Err? {
        return;
      }
      ghost var outer, all := old(arena.frames), FactsOf(facts);
      for k := 0 to |facts|
        invariant arena.Valid() && old(arena.epoch) < arena.epoch && entered == old(entered)
        invariant arena.frames == outer + [all[..k]]
        invariant forall j :: 0 <= j < |facts| ==> arena.Owns(facts[j].expression)
        invariant forall j :: 0 <= j < k ==> arena.native.accepts(all[j], outer + [all[..j]])
      {
        r := arena.AssumeFact(facts[k].expression, facts[k].fact);
        if r.Err? {
          arena.Pop();
          assert arena.frames == outer;
          return;
        }
        assert all[..k + 1] == all[..k] + [all[k]];
      }
      assert all[..|all|] == all;
      entered := true;
      return Ok(());
    }

    method Exit()
      requires arena.Valid() && (entered ==> |arena.frames| > 1)
      modifies this, arena`frames, arena`epoch
      ensures arena.Valid() && !entered && old(arena.epoch) <= arena.epoch
      ensures arena.frames == if old(entered) then old(arena.frames)[..|old(arena.frames)| - 1] else old(arena.frames)
    {
      if entered {
        arena.Pop();
        entered := false;
      }
    }
  }
}
