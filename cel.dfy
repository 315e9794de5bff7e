/**
 * custom_cel/cel.go: the CEL environment and context built for one
 * ConditionalTTL, and the evaluation of its conditions into the Ready
 * condition.
 *
 * Compiling and evaluating CEL is cel-go's work; it enters the model as a
 * CelEngine of three functions.
 */
module Cel {
  import opened Wrappers
  import opened CelValues
  import opened ApiTypes

  /** The name under which the evaluation instant is declared. */
  const TimeVariable := "time"

  datatype CelType = TimestampType | DynType

  /** The environment options used: the strings extension, the list library and variable declarations. */
  datatype EnvOption = StringsExtension | ListsLibrary | Variable(name: string, celType: CelType)

  /** The options every environment starts with. */
  const BaseOptions: seq<EnvOption> := [StringsExtension, ListsLibrary, Variable(TimeVariable, TimestampType)]

  /** One dynamically typed variable per target included in the evaluation, in target order. */
  function IncludedVariables(targets: seq<Target>): (r: seq<EnvOption>)
    ensures |r| <= |targets|
  {
    if targets == [] then []
    else
      var rest := IncludedVariables(targets[1..]);
      if targets[0].includeWhenEvaluating then [Variable(targets[0].name, DynType)] + rest else rest
  }

  /** A name is declared by a target variable exactly when an included target carries it. */
  lemma {:induction false} IncludedVariablesDeclare(targets: seq<Target>, n: string)
    ensures Variable(n, DynType) in IncludedVariables(targets) <==>
      exists j :: 0 <= j < |targets| && targets[j].includeWhenEvaluating && targets[j].name == n
  {
    if targets != [] {
      IncludedVariablesDeclare(targets[1..], n);
      if exists j :: 0 <= j < |targets| && targets[j].includeWhenEvaluating && targets[j].name == n {
        var j :| 0 <= j < |targets| && targets[j].includeWhenEvaluating && targets[j].name == n;
        if j > 0 {
          assert targets[1..][j - 1] == targets[j];
        }
      }
      if Variable(n, DynType) in IncludedVariables(targets[1..]) {
        var j :| 0 <= j < |targets[1..]| && targets[1..][j].includeWhenEvaluating && targets[1..][j].name == n;
        assert targets[j + 1] == targets[1..][j];
      }
    }
  }

  /** BuildCELOptions: the base options, then one variable per included target. */
  method BuildCELOptions(spec: ConditionalTTLSpec) returns (r: seq<EnvOption>)
    ensures r == BaseOptions + IncludedVariables(spec.targets)
  {
    r := BaseOptions;
    var k := 0;
    while k < |spec.targets|
      invariant 0 <= k <= |spec.targets|
      invariant r + IncludedVariables(spec.targets[k..]) == BaseOptions + IncludedVariables(spec.targets)
    {
      var t := spec.targets[k];
      assert spec.targets[k..][1..] == spec.targets[k + 1..];
      if t.includeWhenEvaluating {
        r := r + [Variable(t.name, DynType)];
      }
      k := k + 1;
    }
    assert spec.targets[k..] == [];
  }

  /** The states of the included targets by name; a later target with the same name wins. */
  function TargetBindings(targets: seq<TargetStatus>): map<string, Value>
    decreases |targets|
  {
    if targets == [] then map[]
    else
      var bindings := TargetBindings(targets[..|targets| - 1]);
      var last := targets[|targets| - 1];
      if last.includeWhenEvaluating then bindings[last.name := last.state] else bindings
  }

  /** The activation: every included target's state, and `time` bound to the evaluation instant. */
  function CelContext(targets: seq<TargetStatus>, now: int): map<string, Value>
  {
    TargetBindings(targets)[TimeVariable := Timestamp(now)]
  }

  /** BuildCELContext: binds every included target's state by name, then `time`. */
  method BuildCELContext(targets: seq<TargetStatus>, now: int) returns (ctx: map<string, Value>)
    ensures ctx == CelContext(targets, now)
  {
    ctx := map[];
    var k := 0;
    while k < |targets|
      invariant 0 <= k <= |targets|
      invariant ctx == TargetBindings(targets[..k])
    {
      var ts := targets[k];
      assert targets[..k + 1][..k] == targets[..k];
      if ts.includeWhenEvaluating {
        ctx := ctx[ts.name := ts.state];
      }
      k := k + 1;
    }
    assert targets[..k] == targets;
    ctx := ctx[TimeVariable := Timestamp(now)];
  }

  /** The last index below `upto` of an included target with that name. */
  predicate LastIncluded(targets: seq<TargetStatus>, n: string, i: int)
  {
    && 0 <= i < |targets|
    && targets[i].includeWhenEvaluating && targets[i].name == n
    && forall j :: i < j < |targets| ==> !(targets[j].includeWhenEvaluating && targets[j].name == n)
  }

  lemma {:induction false} TargetBindingsDomain(targets: seq<TargetStatus>, n: string)
    ensures n in TargetBindings(targets) <==>
      exists i :: 0 <= i < |targets| && targets[i].includeWhenEvaluating && targets[i].name == n
    decreases |targets|
  {
    if targets != [] {
      var init := targets[..|targets| - 1];
      TargetBindingsDomain(init, n);
      if exists i :: 0 <= i < |targets| && targets[i].includeWhenEvaluating && targets[i].name == n {
        var i :| 0 <= i < |targets| && targets[i].includeWhenEvaluating && targets[i].name == n;
        if i < |init| {
          assert init[i] == targets[i];
        }
      }
      if exists i :: 0 <= i < |init| && init[i].includeWhenEvaluating && init[i].name == n {
        var i :| 0 <= i < |init| && init[i].includeWhenEvaluating && init[i].name == n;
        assert targets[i] == init[i];
      }
    }
  }

  lemma {:induction false} TargetBindingsLast(targets: seq<TargetStatus>, n: string, i: int)
    requires LastIncluded(targets, n, i)
    ensures n in TargetBindings(targets) && TargetBindings(targets)[n] == targets[i].state
    decreases |targets|
  {
    var init := targets[..|targets| - 1];
    if i < |init| {
      assert LastIncluded(init, n, i) by {
        forall j | i < j < |init|
          ensures !(init[j].includeWhenEvaluating && init[j].name == n)
        {
          assert init[j] == targets[j];
        }
      }
      TargetBindingsLast(init, n, i);
    }
  }

  /**
   * The context binds `time` to the evaluation instant, whatever the
   * targets are called, and every other name to the state of the last
   * included target of that name, and binds nothing else.
   */
  lemma CelContextMeaning(targets: seq<TargetStatus>, now: int, n: string)
    ensures CelContext(targets, now)[TimeVariable] == Timestamp(now)
    ensures n != TimeVariable ==>
      (n in CelContext(targets, now) <==>
        exists i :: 0 <= i < |targets| && targets[i].includeWhenEvaluating && targets[i].name == n)
    ensures n != TimeVariable ==> forall i :: LastIncluded(targets, n, i) ==> CelContext(targets, now)[n] == targets[i].state
  {
    TargetBindingsDomain(targets, n);
    forall i | LastIncluded(targets, n, i)
      ensures n in TargetBindings(targets) && TargetBindings(targets)[n] == targets[i].state
    {
      TargetBindingsLast(targets, n, i);
    }
  }

  /**
   * cel-go as the conditions use it: building an environment (an error
   * message on failure), compiling a condition (compile and program
   * creation; an error message on failure) and evaluating a compiled
   * condition on an activation (an error message on failure).
   */
  datatype CelEngine = CelEngine(
    newEnv: seq<EnvOption> -> Option<string>,
    compile: (seq<EnvOption>, string) -> Option<string>,
    eval: (seq<EnvOption>, string, map<string, Value>) -> Result<Value, string>)

  /** The outcome of EvaluateCELConditions: its two results and the Ready fields it sets. */
  datatype Verdict = Verdict(
    conditionsMet: bool,
    retryable: bool,
    status: ConditionStatus,
    reason: Reason,
    message: string)

  const EnvironmentErrorPrefix := "Error preparing CEL environment: "
  const WaitingMessage := "Waiting for conditions to be met"
  const TerminatingMessage := "Targets resolved and conditions met"

  function CompileErrorMessage(index: nat, err: string): string
  {
    "Error compiling condition " + NatToString(index) + ": " + err
  }

  function EvaluationErrorMessage(index: nat, err: string): string
  {
    "Error evaluating condition " + NatToString(index) + ": " + err
  }

  function NotBooleanMessage(index: nat): string
  {
    "Condition " + NatToString(index) + " result is not a boolean value"
  }

  /** What the conditions from index `from` on decide, given whether all before it were true. */
  function Scan(engine: CelEngine, opts: seq<EnvOption>, ctx: map<string, Value>,
                conditions: seq<string>, from: nat, met: bool): Verdict
    requires from <= |conditions|
    decreases |conditions| - from
  {
    if from == |conditions| then
      if met then Verdict(true, false, True, Terminating, TerminatingMessage)
      else Verdict(false, true, True, WaitingForConditions, WaitingMessage)
    else
      var c := conditions[from];
      match engine.compile(opts, c)
      case Some(err) => Verdict(false, false, False, CompileError, CompileErrorMessage(from, err))
      case None =>
        match engine.eval(opts, c, ctx)
        case Failure(err) => Verdict(false, true, False, EvaluationError, EvaluationErrorMessage(from, err))
        case Success(v) =>
          if !v.Bool? then Verdict(false, false, False, ResultNotBoolean, NotBooleanMessage(from))
          else Scan(engine, opts, ctx, conditions, from + 1, met && v.b)
  }

  function Evaluation(engine: CelEngine, opts: seq<EnvOption>, ctx: map<string, Value>,
                      conditions: seq<string>): (r: Verdict)
    ensures engine.newEnv(opts).Some? ==>
      && !r.conditionsMet && !r.retryable && r.status == False && r.reason == EnvironmentError
      && r.message == EnvironmentErrorPrefix + engine.newEnv(opts).value
  {
    match engine.newEnv(opts)
    case Some(err) => Verdict(false, false, False, EnvironmentError, EnvironmentErrorPrefix + err)
    case None => Scan(engine, opts, ctx, conditions, 0, true)
  }

  /**
   * EvaluateCELConditions: compiles and evaluates the conditions in order,
   * stops at the first one that fails to compile, fails to evaluate or is
   * not a boolean, and otherwise goes through all of them.
   */
  method EvaluateCELConditions(engine: CelEngine, opts: seq<EnvOption>, ctx: map<string, Value>,
                               conditions: seq<string>) returns (v: Verdict)
    ensures v == Evaluation(engine, opts, ctx, conditions)
  {
    var envErr := engine.newEnv(opts);
    if envErr.Some? {
      return Verdict(false, false, False, EnvironmentError, EnvironmentErrorPrefix + envErr.value);
    }
    var condsMet := true;
    var cID := 0;
    while cID < |conditions|
      invariant 0 <= cID <= |conditions|
      invariant Scan(engine, opts, ctx, conditions, cID, condsMet) == Evaluation(engine, opts, ctx, conditions)
    {
      var c := conditions[cID];
      var compileErr := engine.compile(opts, c);
      if compileErr.Some? {
        return Verdict(false, false, False, CompileError, CompileErrorMessage(cID, compileErr.value));
      }
      var out := engine.eval(opts, c, ctx);
      if out.Failure? {
        return Verdict(false, true, False, EvaluationError, EvaluationErrorMessage(cID, out.error));
      }
      if !out.value.Bool? {
        return Verdict(false, false, False, ResultNotBoolean, NotBooleanMessage(cID));
      }
      if !out.value.b {
        condsMet := false;
      }
      cID := cID + 1;
    }
    if !condsMet {
      return Verdict(false, true, True, WaitingForConditions, WaitingMessage);
    }
    return Verdict(true, false, True, Terminating, TerminatingMessage);
  }

  /** A condition that compiles, evaluates and yields a boolean. */
  predicate Valid(engine: CelEngine, opts: seq<EnvOption>, ctx: map<string, Value>, c: string)
  {
    engine.compile(opts, c).None? && engine.eval(opts, c, ctx).Success? && engine.eval(opts, c, ctx).value.Bool?
  }

  /** A condition that compiles and evaluates to true. */
  predicate Holds(engine: CelEngine, opts: seq<EnvOption>, ctx: map<string, Value>, c: string)
  {
    engine.compile(opts, c).None? && engine.eval(opts, c, ctx) == Success(Bool(true))
  }

  /** The Ready fields for an invalid condition at the given index. */
  function FailureVerdict(engine: CelEngine, opts: seq<EnvOption>, ctx: map<string, Value>, c: string, index: nat): Verdict
    requires !Valid(engine, opts, ctx, c)
  {
    if engine.compile(opts, c).Some? then
      Verdict(false, false, False, CompileError, CompileErrorMessage(index, engine.compile(opts, c).value))
    else if engine.eval(opts, c, ctx).Failure? then
      Verdict(false, true, False, EvaluationError, EvaluationErrorMessage(index, engine.eval(opts, c, ctx).error))
    else Verdict(false, false, False, ResultNotBoolean, NotBooleanMessage(index))
  }

  lemma {:induction false} ScanMet(engine: CelEngine, opts: seq<EnvOption>, ctx: map<string, Value>,
                                   conditions: seq<string>, from: nat, met: bool)
    requires from <= |conditions|
    ensures Scan(engine, opts, ctx, conditions, from, met).conditionsMet <==>
      met && forall i :: from <= i < |conditions| ==> Holds(engine, opts, ctx, conditions[i])
    decreases |conditions| - from
  {
    if from < |conditions| {
      ScanMet(engine, opts, ctx, conditions, from + 1, met && Holds(engine, opts, ctx, conditions[from]));
    }
  }

  /** The conditions are met exactly when the environment builds and every condition holds. */
  lemma EvaluationMet(engine: CelEngine, opts: seq<EnvOption>, ctx: map<string, Value>, conditions: seq<string>)
    ensures Evaluation(engine, opts, ctx, conditions).conditionsMet <==>
      engine.newEnv(opts).None? && forall i :: 0 <= i < |conditions| ==> Holds(engine, opts, ctx, conditions[i])
  {
    ScanMet(engine, opts, ctx, conditions, 0, true);
  }

  lemma {:induction false} ScanFirstFailure(engine: CelEngine, opts: seq<EnvOption>, ctx: map<string, Value>,
                                            conditions: seq<string>, from: nat, met: bool, i: nat)
    requires from <= i < |conditions|
    requires !Valid(engine, opts, ctx, conditions[i])
    requires forall k :: from <= k < i ==> Valid(engine, opts, ctx, conditions[k])
    ensures Scan(engine, opts, ctx, conditions, from, met) == FailureVerdict(engine, opts, ctx, conditions[i], i)
    decreases i - from
  {
    if from < i {
      var v := engine.eval(opts, conditions[from], ctx).value;
      ScanFirstFailure(engine, opts, ctx, conditions, from + 1, met && v.b, i);
    }
  }

  /**
   * The first invalid condition decides the outcome, whatever the
   * conditions before it evaluated to and whatever follows it: a compile
   * error, an evaluation error or a non-boolean result at that index.
   */
  lemma EvaluationFirstFailure(engine: CelEngine, opts: seq<EnvOption>, ctx: map<string, Value>,
                               conditions: seq<string>, i: nat)
    requires engine.newEnv(opts).None?
    requires i < |conditions| && !Valid(engine, opts, ctx, conditions[i])
    requires forall k :: 0 <= k < i ==> Valid(engine, opts, ctx, conditions[k])
    ensures Evaluation(engine, opts, ctx, conditions) == FailureVerdict(engine, opts, ctx, conditions[i], i)
  {
    ScanFirstFailure(engine, opts, ctx, conditions, 0, true, i);
  }

  lemma {:induction false} ScanAllValid(engine: CelEngine, opts: seq<EnvOption>, ctx: map<string, Value>,
                                        conditions: seq<string>, from: nat, met: bool)
    requires from <= |conditions|
    requires forall k :: from <= k < |conditions| ==> Valid(engine, opts, ctx, conditions[k])
    ensures var v := Scan(engine, opts, ctx, conditions, from, met);
      v == Verdict(true, false, True, Terminating, TerminatingMessage) ||
      v == Verdict(false, true, True, WaitingForConditions, WaitingMessage)
    decreases |conditions| - from
  {
    if from < |conditions| {
      var v := engine.eval(opts, conditions[from], ctx).value;
      ScanAllValid(engine, opts, ctx, conditions, from + 1, met && v.b);
    }
  }

  /**
   * When every condition is valid, the outcome is Terminating (all true) or
   * WaitingForConditions (some false), with status True either way.
   */
  lemma EvaluationAllValid(engine: CelEngine, opts: seq<EnvOption>, ctx: map<string, Value>, conditions: seq<string>)
    requires engine.newEnv(opts).None?
    requires forall k :: 0 <= k < |conditions| ==> Valid(engine, opts, ctx, conditions[k])
    ensures var v := Evaluation(engine, opts, ctx, conditions);
      && v.status == True
      && (v.reason == Terminating <==> forall k :: 0 <= k < |conditions| ==> Holds(engine, opts, ctx, conditions[k]))
      && (v.reason == Terminating || v.reason == WaitingForConditions)
  {
    ScanAllValid(engine, opts, ctx, conditions, 0, true);
    ScanMet(engine, opts, ctx, conditions, 0, true);
  }

  /** How the two results and the Ready fields go together. */
  predicate Consistent(v: Verdict)
  {
    && (v.conditionsMet <==> v.reason == Terminating)
    && (v.retryable <==> v.reason == EvaluationError || v.reason == WaitingForConditions)
    && (v.status == True <==> v.reason == Terminating || v.reason == WaitingForConditions)
    && v.status != Unknown
    && v.reason !in {NotExpired, KeepMinimumAmount, TargetResolveError}
  }

  lemma {:induction false} ScanConsistent(engine: CelEngine, opts: seq<EnvOption>, ctx: map<string, Value>,
                                          conditions: seq<string>, from: nat, met: bool)
    requires from <= |conditions|
    ensures Consistent(Scan(engine, opts, ctx, conditions, from, met))
    decreases |conditions| - from
  {
    if from < |conditions| && Valid(engine, opts, ctx, conditions[from]) {
      var v := engine.eval(opts, conditions[from], ctx).value;
      ScanConsistent(engine, opts, ctx, conditions, from + 1, met && v.b);
    }
  }

  /**
   * Only a met gate is reported as met, only evaluation errors and unmet
   * gates are retryable, and the status is True exactly for the two
   * outcomes that got through every condition.
   */
  lemma EvaluationConsistent(engine: CelEngine, opts: seq<EnvOption>, ctx: map<string, Value>, conditions: seq<string>)
    ensures Consistent(Evaluation(engine, opts, ctx, conditions))
  {
    ScanConsistent(engine, opts, ctx, conditions, 0, true);
  }
}
