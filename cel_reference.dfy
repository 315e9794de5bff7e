/**
 * A reference evaluator for the CEL expressions the sort_by macro builds,
 * following cel-go's interpreter: errors are values, a call returns the
 * first error among its arguments, and a comprehension folds its step over
 * the elements of a list until its condition evaluates to false. It gives
 * the expansion of custom_cel/lists.go a meaning to prove things about.
 */
module CelReference {
  import opened Wrappers
  import opened CelValues
  import opened CelAst
  import opened Sorting
  import opened Lists

  /** Variable bindings; a bound variable may hold an error value. */
  type Env = map<string, Outcome>

  function SelectField(v: Value, field: string): Outcome
  {
    if !v.Map? then Err(NoSuchOverload("_._"))
    else if field in v.fields then Ok(v.fields[field])
    else Err(NoSuchKey(field))
  }

  /** The functions the expansion calls: list concatenation, pair and sort. */
  function Apply(fn: string, args: seq<Value>): Outcome
  {
    if fn == AddOperator && |args| == 2 && args[0].List? && args[1].List? then
      Ok(List(args[0].items + args[1].items))
    else if fn == PairFunction && |args| == 2 then MakePair(args[0], args[1])
    else if fn == SortFunction && |args| == 2 then Sort(args[0], args[1])
    else Err(NoSuchOverload(fn))
  }

  function Eval(e: Expr, env: Env): Outcome
    decreases Size(e), 1, 0
  {
    match e
    case Ident(n) => if n in env then env[n] else Err(UndeclaredReference(n))
    case Literal(v) => Ok(v)
    case CreateList(es) =>
      (match EvalAll(es, env)
       case Failure(err) => Err(err)
       case Success(vs) => Ok(List(vs)))
    case Select(op, f) =>
      (match Eval(op, env)
       case Err(err) => Err(err)
       case Ok(v) => SelectField(v, f))
    case Call(fn, args) =>
      (match EvalAll(args, env)
       case Failure(err) => Err(err)
       case Success(vs) => Apply(fn, vs))
    case Comprehension(r, iv, av, init, cond, step, res) =>
      (match Eval(r, env)
       case Err(err) => Err(err)
       case Ok(range) =>
         if !range.List? then Err(NoSuchOverload("iterate"))
         else
           var accu := Fold(range.items, iv, av, Eval(init, env), cond, step, env);
           Eval(res, env[av := accu]))
  }

  /** The values of es, left to right, or the first error among them. */
  function EvalAll(es: seq<Expr>, env: Env): Result<seq<Value>, EvalError>
    decreases SizeAll(es), 2, 0
  {
    if es == [] then Success([])
    else
      match Eval(es[0], env)
      case Err(err) => Failure(err)
      case Ok(v) =>
        match EvalAll(es[1..], env)
        case Failure(err) => Failure(err)
        case Success(vs) => Success([v] + vs)
  }

  /**
   * The fold loop: each element is bound to iv (shadowing av), the
   * condition is checked, and the step gives the next accumulator. Only a
   * condition that is the boolean false stops the loop.
   */
  function Fold(items: seq<Value>, iv: string, av: string, accu: Outcome,
                cond: Expr, step: Expr, env: Env): Outcome
    decreases Size(cond) + Size(step), 0, |items|
  {
    if items == [] then accu
    else
      var ctx := env[av := accu][iv := Ok(items[0])];
      if Eval(cond, ctx) == Ok(Bool(false)) then accu
      else Fold(items[1..], iv, av, Eval(step, ctx), cond, step, env)
  }

  /** A binding for a name the expression does not mention changes nothing. */
  lemma {:induction false} EvalFrame(e: Expr, env: Env, n: string, o: Outcome)
    requires !Mentions(e, n)
    ensures Eval(e, env[n := o]) == Eval(e, env)
    decreases Size(e), 1, 0
  {
    match e
    case Ident(m) =>
    case Literal(_) =>
    case CreateList(es) =>
      EvalAllFrame(es, env, n, o);
    case Select(op, _) =>
      EvalFrame(op, env, n, o);
    case Call(_, args) =>
      EvalAllFrame(args, env, n, o);
    case Comprehension(r, iv, av, init, cond, step, res) =>
      EvalFrame(r, env, n, o);
      EvalFrame(init, env, n, o);
      var range := Eval(r, env);
      if range.Ok? && range.value.List? {
        var accu := Eval(init, env);
        FoldFrame(range.value.items, iv, av, accu, cond, step, env, n, o);
        var final := Fold(range.value.items, iv, av, accu, cond, step, env);
        assert env[n := o][av := final] == env[av := final][n := o];
        EvalFrame(res, env[av := final], n, o);
      }
  }

  lemma {:induction false} EvalAllFrame(es: seq<Expr>, env: Env, n: string, o: Outcome)
    requires forall i :: 0 <= i < |es| ==> !Mentions(es[i], n)
    ensures EvalAll(es, env[n := o]) == EvalAll(es, env)
    decreases SizeAll(es), 2, 0
  {
    if es != [] {
      EvalFrame(es[0], env, n, o);
      EvalAllFrame(es[1..], env, n, o);
    }
  }

  lemma {:induction false} FoldFrame(items: seq<Value>, iv: string, av: string, accu: Outcome,
                                     cond: Expr, step: Expr, env: Env, n: string, o: Outcome)
    requires n != iv && n != av && !Mentions(cond, n) && !Mentions(step, n)
    ensures Fold(items, iv, av, accu, cond, step, env[n := o]) == Fold(items, iv, av, accu, cond, step, env)
    decreases Size(cond) + Size(step), 0, |items|
  {
    if items != [] {
      var ctx := env[av := accu][iv := Ok(items[0])];
      assert env[n := o][av := accu][iv := Ok(items[0])] == ctx[n := o];
      EvalFrame(cond, ctx, n, o);
      EvalFrame(step, ctx, n, o);
      FoldFrame(items[1..], iv, av, Eval(step, ctx), cond, step, env, n, o);
    }
  }

  /** The records pair builds for the elements, in list order, or the first error met. */
  function KeyedRecords(xs: seq<Value>, v: string, key: Expr, env: Env): Result<seq<Value>, EvalError>
    decreases |xs|
  {
    if xs == [] then Success([])
    else
      match Eval(key, env[v := Ok(xs[0])])
      case Err(err) => Failure(err)
      case Ok(k) =>
        match MakePair(k, xs[0])
        case Err(err) => Failure(err)
        case Ok(record) =>
          match KeyedRecords(xs[1..], v, key, env)
          case Failure(err) => Failure(err)
          case Success(rest) => Success([record] + rest)
  }

  /**
   * What target.sort_by(v, key, order) means: evaluate key for every
   * element v of the target, pair each key with its element, and sort the
   * pairs.
   */
  function SortBy(target: Expr, v: string, key: Expr, order: Value, env: Env): Outcome
  {
    match Eval(target, env)
    case Err(err) => Err(err)
    case Ok(range) =>
      if !range.List? then Err(NoSuchOverload("iterate"))
      else
        match KeyedRecords(range.items, v, key, env)
        case Failure(err) => Err(err)
        case Success(records) => Sort(List(records), order)
  }

  /** One iteration of the expansion's step: the accumulator grows by the element's pair. */
  lemma StepMeaning(x: Value, accu: Outcome, v: string, key: Expr, env: Env)
    requires v != AccumulatorName && !Mentions(key, AccumulatorName)
    requires accu.Ok? ==> accu.value.List?
    ensures Eval(SortByStep(v, key), env[AccumulatorName := accu][v := Ok(x)]) ==
      if accu.Err? then accu
      else match Eval(key, env[v := Ok(x)])
        case Err(err) => Err(err)
        case Ok(k) =>
          match MakePair(k, x)
          case Err(err) => Err(err)
          case Ok(record) => Ok(List(accu.value.items + [record]))
  {
    var ctx := env[AccumulatorName := accu][v := Ok(x)];
    assert ctx == env[v := Ok(x)][AccumulatorName := accu];
    EvalFrame(key, env[v := Ok(x)], AccumulatorName, accu);
    var keyResult := Eval(key, ctx);
    assert keyResult == Eval(key, env[v := Ok(x)]);
    var pairArgs := [key, Ident(v)];
    var pairCall := Call(PairFunction, pairArgs);
    var listExpr := CreateList([pairCall]);
    var stepArgs := [Ident(AccumulatorName), listExpr];
    assert Eval(Ident(v), ctx) == Ok(x);
    assert Eval(Ident(AccumulatorName), ctx) == accu;
    EvalAllPair(pairArgs, ctx);
    EvalAllPair(stepArgs, ctx);
    EvalAllOne([pairCall], ctx);
    assert EvalAll(pairArgs, ctx) ==
      if keyResult.Err? then Failure(keyResult.error) else Success([keyResult.value, x]);
  }

  lemma EvalAllOne(es: seq<Expr>, env: Env)
    requires |es| == 1
    ensures EvalAll(es, env) ==
      match Eval(es[0], env)
      case Err(err) => Failure(err)
      case Ok(a) => Success([a])
  {
    assert es[1..] == [];
    assert EvalAll(es[1..], env) == Success([]);
    match Eval(es[0], env)
    case Err(_) =>
    case Ok(a) =>
      assert [a] + [] == [a];
  }

  /** Two arguments: the first error, else both values. */
  lemma EvalAllPair(es: seq<Expr>, env: Env)
    requires |es| == 2
    ensures EvalAll(es, env) ==
      match Eval(es[0], env)
      case Err(err) => Failure(err)
      case Ok(a) =>
        match Eval(es[1], env)
        case Err(err) => Failure(err)
        case Ok(b) => Success([a, b])
  {
    EvalAllOne(es[1..], env);
    assert es[1..][0] == es[1];
    match Eval(es[0], env)
    case Err(_) =>
    case Ok(a) =>
      match Eval(es[1], env)
      case Err(_) =>
      case Ok(b) =>
        assert [a] + [b] == [a, b];
  }

  /** An error accumulator stays the result of every later iteration. */
  lemma {:induction false} FoldKeepsError(xs: seq<Value>, v: string, key: Expr, err: EvalError, env: Env)
    requires v != AccumulatorName && !Mentions(key, AccumulatorName)
    ensures Fold(xs, v, AccumulatorName, Err(err), Literal(Bool(true)), SortByStep(v, key), env) == Err(err)
    decreases |xs|
  {
    if xs != [] {
      StepMeaning(xs[0], Err(err), v, key, env);
      FoldKeepsError(xs[1..], v, key, err, env);
    }
  }

  /** The fold of the expansion builds the records of KeyedRecords after those already collected. */
  lemma {:induction false} FoldMeaning(xs: seq<Value>, done: seq<Value>, v: string, key: Expr, env: Env)
    requires v != AccumulatorName && !Mentions(key, AccumulatorName)
    ensures Fold(xs, v, AccumulatorName, Ok(List(done)), Literal(Bool(true)), SortByStep(v, key), env) ==
      match KeyedRecords(xs, v, key, env)
      case Failure(err) => Err(err)
      case Success(records) => Ok(List(done + records))
    decreases |xs|
  {
    if xs == [] {
      assert done + [] == done;
    } else {
      StepMeaning(xs[0], Ok(List(done)), v, key, env);
      match Eval(key, env[v := Ok(xs[0])])
      case Err(err) =>
        FoldKeepsError(xs[1..], v, key, err, env);
      case Ok(k) =>
        match MakePair(k, xs[0])
        case Err(err) =>
          FoldKeepsError(xs[1..], v, key, err, env);
        case Ok(record) =>
          FoldMeaning(xs[1..], done + [record], v, key, env);
          match KeyedRecords(xs[1..], v, key, env)
          case Failure(_) =>
          case Success(rest) =>
            assert done + [record] + rest == done + ([record] + rest);
    }
  }

  /** The result expression of the expansion sorts the accumulated records. */
  lemma ResultMeaning(final: Outcome, order: Value, env: Env)
    requires final.Ok? ==> final.value.List?
    ensures Eval(SortByResult(order), env[AccumulatorName := final]) ==
      if final.Err? then final else Sort(final.value, order)
  {
    var resEnv := env[AccumulatorName := final];
    EvalAllPair([Ident(AccumulatorName), Literal(order)], resEnv);
    assert Eval(Ident(AccumulatorName), resEnv) == final;
  }

  /**
   * The expansion makeSortBy builds means SortBy: sort_by sorts the
   * target's elements by the key, or gives the first error met, provided the
   * bound name and the key stay clear of the accumulator's name.
   */
  lemma SortByExpansion(target: Expr, args: seq<Expr>, env: Env)
    requires |args| == 2 || |args| == 3
    requires args[0].Ident? && args[0].name != AccumulatorName
    requires !Mentions(args[1], AccumulatorName)
    ensures MakeSortBy(target, args).Expanded?
    ensures Eval(MakeSortBy(target, args).expr, env) ==
      SortBy(target, args[0].name, args[1], ExtractOrder(args), env)
  {
    var v := args[0].name;
    var key := args[1];
    var order := ExtractOrder(args);
    var step := SortByStep(v, key);
    var e := Comprehension(target, v, AccumulatorName, CreateList([]), Literal(Bool(true)), step, SortByResult(order));
    assert MakeSortBy(target, args) == Expanded(e);
    assert Eval(CreateList([]), env) == Ok(List([]));
    match Eval(target, env)
    case Err(_) =>
    case Ok(range) =>
      if range.List? {
        FoldMeaning(range.items, [], v, key, env);
        var final := Fold(range.items, v, AccumulatorName, Ok(List([])), Literal(Bool(true)), step, env);
        assert Eval(e, env) == Eval(SortByResult(order), env[AccumulatorName := final]);
        ResultMeaning(final, order, env);
        match KeyedRecords(range.items, v, key, env)
        case Failure(err) =>
        case Success(records) =>
          assert [] + records == records;
      }
  }

  /** The key of an element: the key expression with v bound to it. */
  function KeyOf(x: Value, v: string, key: Expr, env: Env): Outcome
  {
    Eval(key, env[v := Ok(x)])
  }

  /** Every element's key evaluates without error to a value that can be compared. */
  predicate KeysComparable(xs: seq<Value>, v: string, key: Expr, env: Env)
  {
    forall i :: 0 <= i < |xs| ==> KeyOf(xs[i], v, key, env).Ok? && Comparable(KeyOf(xs[i], v, key, env).value)
  }

  function Keys(xs: seq<Value>, v: string, key: Expr, env: Env): (r: seq<Value>)
    requires KeysComparable(xs, v, key, env)
    ensures |r| == |xs|
  {
    seq(|xs|, i requires 0 <= i < |xs| => KeyOf(xs[i], v, key, env).value)
  }

  /** The pairs sort_by sorts: each element with its key. */
  function KeyPairs(xs: seq<Value>, v: string, key: Expr, env: Env): (r: seq<Pair>)
    requires KeysComparable(xs, v, key, env)
    ensures |r| == |xs|
  {
    var ks := Keys(xs, v, key, env);
    seq(|xs|, i requires 0 <= i < |xs| => Pair(ks[i], xs[i]))
  }

  lemma {:induction false} KeyedRecordsOk(xs: seq<Value>, v: string, key: Expr, env: Env)
    requires KeysComparable(xs, v, key, env)
    ensures KeyedRecords(xs, v, key, env).Success?
    ensures var records := KeyedRecords(xs, v, key, env).value;
      && |records| == |xs|
      && forall i :: 0 <= i < |xs| ==> MakePair(Keys(xs, v, key, env)[i], xs[i]) == Ok(records[i])
    decreases |xs|
  {
    if xs != [] {
      var ks := Keys(xs, v, key, env);
      KeyedRecordsOk(xs[1..], v, key, env);
      assert Keys(xs[1..], v, key, env) == ks[1..];
      assert Eval(key, env[v := Ok(xs[0])]) == Ok(ks[0]);
    }
  }

  lemma {:induction false} RecordValues(ks: seq<Value>, xs: seq<Value>, records: seq<Value>)
    requires |ks| == |xs| == |records|
    requires forall i :: 0 <= i < |records| ==> MakePair(ks[i], xs[i]) == Ok(records[i])
    ensures ElementValues(List(records)) == xs
  {
    forall k | 0 <= k < |xs|
      ensures MapSeq(ValueOf, records)[k] == xs[k]
    {
      MapSeqAt(ValueOf, records, k);
    }
  }

  /**
   * When every key evaluates to a comparable value and the order names a
   * direction, sort_by returns the target's elements, each as often as it
   * occurs, arranged so that their keys are sorted in that direction.
   */
  lemma SortBySorts(target: Expr, v: string, key: Expr, order: string, env: Env, xs: seq<Value>)
    requires Eval(target, env) == Ok(List(xs))
    requires KeysComparable(xs, v, key, env)
    requires ParseOrder(order).Some?
    ensures SortBy(target, v, key, Str(order), env).Ok?
    ensures var r := SortBy(target, v, key, Str(order), env).value;
      && r.List?
      && multiset(r.items) == multiset(xs)
      && exists out :: SortedArrangement(KeyPairs(xs, v, key, env), ParseOrder(order).value, out) && r.items == ValuesOf(out)
  {
    var ks := Keys(xs, v, key, env);
    KeyedRecordsOk(xs, v, key, env);
    var records := KeyedRecords(xs, v, key, env).value;
    SortAcceptsPairs(ks, xs, records, order);
    RecordValues(ks, xs, records);
    SortResult(List(records), Str(order));
    assert SortInput(List(records), Str(order)).value.pairs == KeyPairs(xs, v, key, env);
  }

  /** The list [3, 1, 2] of the sort_by documentation. */
  function Example(): Expr
  {
    CreateList([Literal(Int(3)), Literal(Int(1)), Literal(Int(2))])
  }

  lemma EvalExample(env: Env)
    ensures Eval(Example(), env) == Ok(List([Int(3), Int(1), Int(2)]))
  {
    var es := [Literal(Int(3)), Literal(Int(1)), Literal(Int(2))];
    assert es[1..] == [Literal(Int(1)), Literal(Int(2))];
    EvalAllPair(es[1..], env);
    assert EvalAll(es[1..], env) == Success([Int(1), Int(2)]);
    assert EvalAll(es, env) == Success([Int(3)] + [Int(1), Int(2)]);
    assert [Int(3)] + [Int(1), Int(2)] == [Int(3), Int(1), Int(2)];
  }

  lemma ValuesOfThree(a: Pair, b: Pair, c: Pair)
    ensures ValuesOf([a, b, c]) == [a.value, b.value, c.value]
  {
    MapSeqAt(PairValue, [a, b, c], 0);
    MapSeqAt(PairValue, [a, b, c], 1);
    MapSeqAt(PairValue, [a, b, c], 2);
  }

  /** Sorting the pairs of [3, 1, 2] keyed by themselves. */
  lemma SortExamplePairs(dir: Direction)
    ensures var ps := [Pair(Int(3), Int(3)), Pair(Int(1), Int(1)), Pair(Int(2), Int(2))];
      ValuesOf(InsertionSorted(ps, PairLess(dir))) ==
        if dir == Ascending then [Int(1), Int(2), Int(3)] else [Int(3), Int(2), Int(1)]
  {
    var p3, p1, p2 := Pair(Int(3), Int(3)), Pair(Int(1), Int(1)), Pair(Int(2), Int(2));
    var ps := [p3, p1, p2];
    var less := PairLess(dir);
    assert ps[..2][..1] == [p3];
    assert InsertionSorted([p3], less) == [p3];
    assert ps[..2] == [p3, p1];
    if dir == Ascending {
      assert Insert([], p1, less) == [p1];
      assert InsertionSorted(ps[..2], less) == [p1, p3];
      assert Insert([p1], p2, less) == [p1, p2];
      assert InsertionSorted(ps, less) == [p1, p2, p3];
      ValuesOfThree(p1, p2, p3);
    } else {
      assert InsertionSorted(ps[..2], less) == [p3, p1];
      assert Insert([p3], p2, less) == [p3, p2];
      assert InsertionSorted(ps, less) == [p3, p2, p1];
      ValuesOfThree(p3, p2, p1);
    }
  }

  /** [3,1,2].sort_by(i, i) returns [1,2,3] and [3,1,2].sort_by(i, i, "desc") returns [3,2,1]. */
  lemma SortByExamples(order: string)
    requires order == AscendingOrder || order == DescendingOrder
    ensures var args := [Ident("i"), Ident("i"), Literal(Str(order))];
      && MakeSortBy(Example(), args).Expanded?
      && Eval(MakeSortBy(Example(), args).expr, map[]) ==
        Ok(List(if order == AscendingOrder then [Int(1), Int(2), Int(3)] else [Int(3), Int(2), Int(1)]))
  {
    var env: Env := map[];
    var args := [Ident("i"), Ident("i"), Literal(Str(order))];
    SortByExpansion(Example(), args, env);
    EvalExample(env);
    var xs := [Int(3), Int(1), Int(2)];
    assert KeysComparable(xs, "i", Ident("i"), env);
    KeyedRecordsOk(xs, "i", Ident("i"), env);
    var records := KeyedRecords(xs, "i", Ident("i"), env).value;
    var ks := Keys(xs, "i", Ident("i"), env);
    assert ks == xs;
    assert ParseOrder(order).Some?;
    SortAcceptsPairs(ks, xs, records, order);
    var job := SortInput(List(records), Str(order)).value;
    assert job.pairs == [Pair(Int(3), Int(3)), Pair(Int(1), Int(1)), Pair(Int(2), Int(2))];
    SortExamplePairs(job.dir);
  }

  /** Without an order argument the macro sorts ascending: [3,1,2].sort_by(i, i) returns [1,2,3]. */
  lemma SortByDefaultExample()
    ensures MakeSortBy(Example(), [Ident("i"), Ident("i")]).Expanded?
    ensures Eval(MakeSortBy(Example(), [Ident("i"), Ident("i")]).expr, map[]) == Ok(List([Int(1), Int(2), Int(3)]))
  {
    var env: Env := map[];
    var two := [Ident("i"), Ident("i")];
    var three := [Ident("i"), Ident("i"), Literal(Str(AscendingOrder))];
    SortByExpansion(Example(), two, env);
    SortByExpansion(Example(), three, env);
    assert ExtractOrder(two) == ExtractOrder(three);
    SortByExamples(AscendingOrder);
  }
}
