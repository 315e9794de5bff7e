/**
 * The list library of custom_cel/lists.go: the `pair` function, the `sort`
 * function behind it, and the `sort_by` receiver macro that expands into a
 * comprehension over both.
 */
module Lists {
  import opened Wrappers
  import opened CelValues
  import opened CelAst
  import opened Sorting

  /** The field names of the records that `pair` builds. */
  const OrderKey := "order"
  const ValueKey := "value"

  /** The name of the `pair` and `sort` functions in the environment. */
  const PairFunction := "pair"
  const SortFunction := "sort"

  /**
   * pair(order, value): a record holding both, or an error when the order
   * cannot be compared.
   */
  function MakePair(order: Value, value: Value): (r: Outcome)
    ensures r.Err? <==> !Comparable(order)
    ensures r.Err? ==> r.error == NotComparable(order)
    ensures r.Ok? ==> r.value.Map? && HasValue(r.value) && PairOf(r.value) == Pair(order, value)
    ensures r.Ok? ==> && r.value.fields.Keys == {OrderKey, ValueKey}
                      && r.value.fields[OrderKey] == order && r.value.fields[ValueKey] == value
  {
    if !Comparable(order) then Err(NotComparable(order))
    else Ok(Map(map[OrderKey := order, ValueKey := value]))
  }

  /** The `pair` struct: a sort key and the value it carries. */
  datatype Pair = Pair(order: Value, value: Value)

  /**
   * The order field of a record. A missing field reads as an error value,
   * which, like null, is not comparable; both are modelled as Null.
   */
  function OrderOf(item: Value): Value
  {
    if item.Map? && OrderKey in item.fields then item.fields[OrderKey] else Null
  }

  predicate HasValue(item: Value)
  {
    item.Map? && ValueKey in item.fields
  }

  function ValueOf(item: Value): Value
  {
    if HasValue(item) then item.fields[ValueKey] else Null
  }

  function PairOf(item: Value): Pair
  {
    Pair(OrderOf(item), ValueOf(item))
  }

  function PairValue(p: Pair): Value
  {
    p.value
  }

  function ValuesOf(ps: seq<Pair>): (r: seq<Value>)
    ensures |r| == |ps|
  {
    MapSeq(PairValue, ps)
  }

  /** ascSort or descSort: p goes before q when its order compares below (above) q's. */
  function PairLess(dir: Direction): (Pair, Pair) -> bool
  {
    (p: Pair, q: Pair) => Before(dir, p.order, q.order)
  }

  /** All sort keys are of one comparable kind, so any two of them compare. */
  predicate Homogeneous(ps: seq<Pair>)
  {
    forall i, j :: 0 <= i < |ps| && 0 <= j < |ps| ==> SameComparableKind(ps[i].order, ps[j].order)
  }

  predicate KeyNotComparableIn(v: Value)
  {
    !Comparable(OrderOf(v))
  }

  predicate LacksValue(v: Value)
  {
    !HasValue(v)
  }

  /** What sort.Slice is asked to do: the pairs, in list order, and the direction. */
  datatype SortJob = SortJob(pairs: seq<Pair>, dir: Direction)

  /**
   * The checks `sort` makes before it sorts, in the order it makes them:
   * the receiver is a list, the order is a string, every element is a
   * record, the order names a direction; then the pairs must be usable by
   * the comparison (only consulted when there are two or more) and carry a
   * value.
   */
  function SortInput(items: Value, order: Value): (r: Result<SortJob, EvalError>)
    ensures r.Success? ==>
      && items.List? && order.Str? && ParseOrder(order.s) == Some(r.value.dir)
      && |r.value.pairs| == |items.items|
      && forall i :: 0 <= i < |items.items| ==> items.items[i].Map?
    ensures items.List? && order.Str? && ParseOrder(order.s).None? ==> r.Failure?
  {
    if !items.List? then Failure(NotAList)
    else if !order.Str? then Failure(OrderNotString)
    else
      var xs := items.items;
      match FirstWhere(xs, NotRecord)
      case Some(i) => Failure(ElemNotMap(i))
      case None =>
        match ParseOrder(order.s)
        case None => Failure(UnknownOrder(order.s))
        case Some(dir) =>
          match (if |xs| < 2 then None else FirstWhere(xs, KeyNotComparableIn))
          case Some(i) => Failure(KeyNotComparable(i))
          case None =>
            match FirstWhere(xs, LacksValue)
            case Some(i) => Failure(MissingValue(i))
            case None => Success(SortJob(MapSeq(PairOf, xs), dir))
  }

  /** sort(items, order): the values of the pairs, arranged by their orders. */
  function Sort(items: Value, order: Value): (r: Outcome)
    ensures r.Ok? ==> items.List? && r.value.List? && |r.value.items| == |items.items|
    ensures r.Err? <==> SortInput(items, order).Failure?
  {
    match SortInput(items, order)
    case Failure(e) => Err(e)
    case Success(job) => Ok(List(ValuesOf(InsertionSorted(job.pairs, PairLess(job.dir)))))
  }

  /** The loop of sortByOrder that reads each element's order and value, stopping at the first non-record. */
  method CollectPairs(xs: seq<Value>) returns (r: Result<seq<Pair>, nat>)
    ensures match FirstWhere(xs, NotRecord)
      case Some(i) => r == Failure(i)
      case None => r == Success(MapSeq(PairOf, xs))
  {
    var pairs: seq<Pair> := [];
    var index := 0;
    while index < |xs|
      invariant 0 <= index <= |xs|
      invariant |pairs| == index
      invariant forall k :: 0 <= k < index ==> !NotRecord(xs[k]) && pairs[k] == PairOf(xs[k])
    {
      if NotRecord(xs[index]) {
        ghost var f := FirstWhere(xs, NotRecord);
        assert f.Some?;
        assert f.value <= index;
        return Failure(index);
      }
      pairs := pairs + [PairOf(xs[index])];
      index := index + 1;
    }
    forall k | 0 <= k < |xs|
      ensures pairs[k] == MapSeq(PairOf, xs)[k]
    {
      MapSeqAt(PairOf, xs, k);
    }
    assert pairs == MapSeq(PairOf, xs);
    assert FirstWhere(xs, NotRecord).None?;
    return Success(pairs);
  }

  /** The loop of sortByOrder that lists the values of the sorted pairs. */
  method ExtractValues(a: array<Pair>) returns (ordered: seq<Value>)
    ensures ordered == ValuesOf(a[..])
  {
    ordered := [];
    var n := 0;
    while n < a.Length
      invariant 0 <= n <= a.Length
      invariant |ordered| == n
      invariant forall k :: 0 <= k < n ==> ordered[k] == a[k].value
    {
      ordered := ordered + [a[n].value];
      n := n + 1;
    }
    forall k | 0 <= k < a.Length
      ensures ordered[k] == ValuesOf(a[..])[k]
    {
      MapSeqAt(PairValue, a[..], k);
    }
  }

  /** sortByOrder: collects the pairs, sorts them in place and returns their values. */
  method SortByOrder(items: Value, order: Value) returns (r: Outcome)
    ensures r == Sort(items, order)
  {
    if !items.List? {
      return Err(NotAList);
    }
    if !order.Str? {
      return Err(OrderNotString);
    }
    var xs := items.items;
    var collected := CollectPairs(xs);
    if collected.Failure? {
      return Err(ElemNotMap(collected.error));
    }
    var pairs := collected.value;
    var dir;
    match ParseOrder(order.s) {
      case None =>
        return Err(UnknownOrder(order.s));
      case Some(d) =>
        dir := d;
    }
    if |xs| >= 2 {
      var bad := FirstWhere(xs, KeyNotComparableIn);
      if bad.Some? {
        return Err(KeyNotComparable(bad.value));
      }
    }
    var missing := FirstWhere(xs, LacksValue);
    if missing.Some? {
      return Err(MissingValue(missing.value));
    }
    var a := new Pair[|pairs|](k requires 0 <= k < |pairs| => pairs[k]);
    assert a[..] == pairs;
    InsertionSort(a, PairLess(dir));
    var ordered := ExtractValues(a);
    return Ok(List(ordered));
  }

  /** The record values of a list, in list order. */
  function ElementValues(items: Value): seq<Value>
  {
    if items.List? then MapSeq(ValueOf, items.items) else []
  }

  /**
   * out is an arrangement of the pairs that sort.Slice may return: a
   * permutation in which no pair goes before its left neighbour and, when
   * all orders are of one comparable kind, before any pair to its left.
   */
  ghost predicate SortedArrangement(ps: seq<Pair>, dir: Direction, out: seq<Pair>)
  {
    && multiset(out) == multiset(ps)
    && AdjacentSorted(out, PairLess(dir))
    && (Homogeneous(ps) ==> Sorted(out, PairLess(dir)))
  }

  lemma PairLessAsymmetric(dir: Direction)
    ensures Asymmetric(PairLess(dir))
  {
    forall p: Pair, q: Pair
      ensures PairLess(dir)(p, q) ==> !PairLess(dir)(q, p)
    {
      BeforeAsymmetric(dir, p.order, q.order);
    }
  }

  /** Within one comparable kind, "does not go before" is transitive in both directions. */
  lemma NotBeforeTransitive(dir: Direction, a: Value, b: Value, c: Value)
    requires SameComparableKind(a, b) && SameComparableKind(b, c)
    requires !Before(dir, b, a) && !Before(dir, c, b)
    ensures !Before(dir, c, a)
  {
    CompareFlip(a, b);
    CompareFlip(b, c);
    CompareFlip(a, c);
    if dir == Ascending {
      CompareTransitive(a, b, c);
    } else {
      assert SameComparableKind(c, b) && SameComparableKind(b, a);
      CompareTransitive(c, b, a);
    }
  }

  lemma HomogeneousPermutation(ps: seq<Pair>, qs: seq<Pair>)
    requires multiset(ps) == multiset(qs)
    requires Homogeneous(ps)
    ensures Homogeneous(qs)
  {
    forall i, j | 0 <= i < |qs| && 0 <= j < |qs|
      ensures SameComparableKind(qs[i].order, qs[j].order)
    {
      assert qs[i] in multiset(ps) && qs[j] in multiset(ps);
      var i' :| 0 <= i' < |ps| && ps[i'] == qs[i];
      var j' :| 0 <= j' < |ps| && ps[j'] == qs[j];
    }
  }

  /** The sorted pairs form an arrangement sort.Slice may return. */
  lemma {:induction false} InsertionSortedIsSortedArrangement(ps: seq<Pair>, dir: Direction)
    ensures SortedArrangement(ps, dir, InsertionSorted(ps, PairLess(dir)))
  {
    var out := InsertionSorted(ps, PairLess(dir));
    InsertionSortedPermutation(ps, PairLess(dir));
    PairLessAsymmetric(dir);
    InsertionSortedAdjacentSorted(ps, PairLess(dir));
    if Homogeneous(ps) {
      HomogeneousPermutation(ps, out);
      forall i, j, k |
        0 <= i < |out| && 0 <= j < |out| && 0 <= k < |out| &&
        !PairLess(dir)(out[j], out[i]) && !PairLess(dir)(out[k], out[j])
        ensures !PairLess(dir)(out[k], out[i])
      {
        NotBeforeTransitive(dir, out[i].order, out[j].order, out[k].order);
      }
      AdjacentSortedIsSorted(out, PairLess(dir));
    }
  }

  lemma {:induction false} ValuesOfPairs(xs: seq<Value>)
    ensures ValuesOf(MapSeq(PairOf, xs)) == MapSeq(ValueOf, xs)
  {
    forall k | 0 <= k < |xs|
      ensures ValuesOf(MapSeq(PairOf, xs))[k] == MapSeq(ValueOf, xs)[k]
    {
      MapSeqAt(PairOf, xs, k);
      MapSeqAt(PairValue, MapSeq(PairOf, xs), k);
      MapSeqAt(ValueOf, xs, k);
    }
  }

  /**
   * A successful sort returns the elements' values, each exactly as often as
   * it occurs, arranged by their orders in the direction requested.
   */
  lemma SortResult(items: Value, order: Value)
    requires Sort(items, order).Ok?
    ensures items.List? && order.Str? && ParseOrder(order.s).Some?
    ensures var r := Sort(items, order).value;
      && r.List?
      && multiset(r.items) == multiset(ElementValues(items))
      && exists out ::
        && SortedArrangement(MapSeq(PairOf, items.items), ParseOrder(order.s).value, out)
        && r.items == ValuesOf(out)
  {
    var job := SortInput(items, order).value;
    var out := InsertionSorted(job.pairs, PairLess(job.dir));
    InsertionSortedIsSortedArrangement(job.pairs, job.dir);
    MapSeqPermutation(PairValue, out, job.pairs);
    ValuesOfPairs(items.items);
  }

  /** The records that pair builds from comparable orders always pass sort's checks. */
  lemma {:induction false} SortAcceptsPairs(orders: seq<Value>, values: seq<Value>, records: seq<Value>, order: string)
    requires |orders| == |values| == |records|
    requires forall i :: 0 <= i < |records| ==> MakePair(orders[i], values[i]) == Ok(records[i])
    requires ParseOrder(order).Some?
    ensures SortInput(List(records), Str(order)).Success?
    ensures var job := SortInput(List(records), Str(order)).value;
      && job.dir == ParseOrder(order).value
      && |job.pairs| == |records|
      && forall i :: 0 <= i < |records| ==> job.pairs[i] == Pair(orders[i], values[i])
  {
    assert FirstWhere(records, NotRecord).None?;
    assert FirstWhere(records, KeyNotComparableIn).None?;
    assert FirstWhere(records, LacksValue).None?;
    forall k | 0 <= k < |records|
      ensures MapSeq(PairOf, records)[k] == Pair(orders[k], values[k])
    {
      MapSeqAt(PairOf, records, k);
    }
  }

  /** The expansion of a macro call, or the error reported at one of its arguments. */
  datatype MacroResult = Expanded(expr: Expr) | MacroError(at: Expr, message: string)

  const NotAnIdentifier := "argument is not an identifier"

  /** extractIdent: the name of an identifier expression. */
  function ExtractIdent(e: Expr): (r: Option<string>)
    ensures r.Some? <==> e.Ident?
    ensures r.Some? ==> r.value == e.name
  {
    if e.Ident? then Some(e.name) else None
  }

  /**
   * extractOrder: the third macro argument's literal value, or "asc" when
   * there are two arguments. A third argument that is not a literal has no
   * literal value and reads as null.
   */
  function ExtractOrder(args: seq<Expr>): (r: Value)
    ensures |args| != 3 ==> r == Str(AscendingOrder)
    ensures |args| == 3 && args[2].Literal? ==> r == args[2].value
    ensures |args| == 3 && !args[2].Literal? ==> r == Null
  {
    if |args| == 3 then (if args[2].Literal? then args[2].value else Null)
    else Str(AscendingOrder)
  }

  /** The loop step of the expansion: __result__ + [pair(key, v)]. */
  function SortByStep(v: string, key: Expr): Expr
  {
    Call(AddOperator, [Ident(AccumulatorName), CreateList([Call(PairFunction, [key, Ident(v)])])])
  }

  /** The result of the expansion: sort(__result__, order). */
  function SortByResult(order: Value): Expr
  {
    Call(SortFunction, [Ident(AccumulatorName), Literal(order)])
  }

  /**
   * makeSortBy: target.sort_by(v, key[, order]) becomes a comprehension that
   * starts from [], adds pair(key, v) for every element v of target, and
   * ends with sort(__result__, order). The macro is registered for two and
   * three arguments only.
   */
  function MakeSortBy(target: Expr, args: seq<Expr>): (r: MacroResult)
    requires |args| == 2 || |args| == 3
    ensures r.MacroError? <==> !args[0].Ident?
    ensures r.MacroError? ==> r.at == args[0] && r.message == NotAnIdentifier
  {
    match ExtractIdent(args[0])
    case None => MacroError(args[0], NotAnIdentifier)
    case Some(v) =>
      var fn := args[1];
      Expanded(Comprehension(
        target, v, AccumulatorName, CreateList([]), Literal(Bool(true)),
        SortByStep(v, fn), SortByResult(ExtractOrder(args))))
  }
}
