/**
 * The dynamically typed values that the CEL extension functions of
 * custom_cel/ see, the three-way comparison cel-go's traits.Comparer gives
 * them, and the order-name parsing shared by `sort` and the
 * creation-timestamp sort.
 *
 * Timestamps are integer instants (seconds); doubles, uints, bytes and
 * durations are not modelled.
 */
module CelValues {
  import opened Wrappers

  datatype Value =
    | Null
    | Bool(b: bool)
    | Int(i: int)
    | Str(s: string)
    | Timestamp(t: int)
    | List(items: seq<Value>)
    | Map(fields: map<string, Value>)

  /** The errors the modelled CEL functions (and the reference evaluator) return as values. */
  datatype EvalError =
    | NotAList                          // "unable to convert to traits.Lister"
    | OrderNotString                    // "unable to convert to ref.Val string"
    | ElemNotMap(index: nat)            // "unable to convert elem %d to traits.Mapper"
    | UnknownOrder(order: string)       // "unknown order: %s"
    | NotComparable(key: Value)         // "unable to build ordered pair with value %v"
    | KeyNotComparable(index: nat)      // a pair whose order field cannot be compared
    | MissingValue(index: nat)          // a pair without a value field
    | ItemNotMap(index: nat)            // a creation-timestamp sort item that is not a record
    | UndeclaredReference(name: string)
    | NoSuchKey(field: string)
    | NoSuchOverload(overload: string)

  /** A CEL result: a value, or an error value. */
  datatype Outcome = Ok(value: Value) | Err(error: EvalError)

  /** A value that is not a record (traits.Mapper). */
  predicate NotRecord(v: Value)
  {
    !v.Map?
  }

  /** The kinds that implement traits.Comparer. */
  predicate Comparable(v: Value)
  {
    v.Bool? || v.Int? || v.Str? || v.Timestamp?
  }

  /** Two values that cel-go can compare with each other: the same comparable kind. */
  predicate SameComparableKind(a: Value, b: Value)
  {
    || (a.Bool? && b.Bool?)
    || (a.Int? && b.Int?)
    || (a.Str? && b.Str?)
    || (a.Timestamp? && b.Timestamp?)
  }

  /** IntNegOne, IntZero, IntOne, or an error value for a pair that cannot be compared. */
  datatype Ordering = Less | Equal | Greater | Incomparable

  function CompareInts(x: int, y: int): Ordering
  {
    if x < y then Less else if x == y then Equal else Greater
  }

  /** Lexicographic comparison by code point (the order of Go's byte-wise string comparison on UTF-8). */
  function CompareStrings(x: string, y: string): (r: Ordering)
    ensures r != Incomparable
    ensures r == Equal <==> x == y
  {
    if x == [] then (if y == [] then Equal else Less)
    else if y == [] then Greater
    else if x[0] < y[0] then Less
    else if x[0] > y[0] then Greater
    else
      var r := CompareStrings(x[1..], y[1..]);
      assert r == Equal ==> x == [x[0]] + x[1..] == [y[0]] + y[1..] == y;
      r
  }

  /** traits.Comparer.Compare: defined on two values of the same comparable kind. */
  function Compare(a: Value, b: Value): (r: Ordering)
    ensures r == Incomparable <==> !SameComparableKind(a, b)
    ensures r == Equal ==> a == b
  {
    match (a, b)
    case (Bool(x), Bool(y)) => if x == y then Equal else if !x then Less else Greater
    case (Int(x), Int(y)) => CompareInts(x, y)
    case (Str(x), Str(y)) => CompareStrings(x, y)
    case (Timestamp(x), Timestamp(y)) => CompareInts(x, y)
    case _ => Incomparable
  }

  lemma {:induction false} CompareStringsFlip(x: string, y: string)
    ensures CompareStrings(x, y) == Less <==> CompareStrings(y, x) == Greater
  {
    if x != [] && y != [] && x[0] == y[0] {
      CompareStringsFlip(x[1..], y[1..]);
    }
  }

  lemma {:induction false} CompareStringsTransitive(x: string, y: string, z: string)
    requires CompareStrings(x, y) != Greater && CompareStrings(y, z) != Greater
    ensures CompareStrings(x, z) != Greater
  {
    if x != [] && y != [] && z != [] && x[0] == y[0] == z[0] {
      CompareStringsTransitive(x[1..], y[1..], z[1..]);
    }
  }

  /** Compare is antisymmetric: a sorts before b exactly when b sorts after a. */
  lemma CompareFlip(a: Value, b: Value)
    ensures Compare(a, b) == Less <==> Compare(b, a) == Greater
    ensures Compare(a, b) == Greater <==> Compare(b, a) == Less
  {
    if a.Str? && b.Str? {
      CompareStringsFlip(a.s, b.s);
      CompareStringsFlip(b.s, a.s);
    }
  }

  /** Within one comparable kind, "not after" is transitive: Compare is a total order there. */
  lemma CompareTransitive(a: Value, b: Value, c: Value)
    requires SameComparableKind(a, b) && SameComparableKind(b, c)
    requires Compare(a, b) != Greater && Compare(b, c) != Greater
    ensures Compare(a, c) != Greater
  {
    if a.Str? {
      CompareStringsTransitive(a.s, b.s, c.s);
    }
  }

  /** The two order names, "asc" and "desc". */
  const AscendingOrder := "asc"
  const DescendingOrder := "desc"

  datatype Direction = Ascending | Descending

  function LowerChar(c: char): char
  {
    if 'A' <= c <= 'Z' then (c as int + 32) as char else c
  }

  /** strings.ToLower on the letters that matter for the order names (ASCII). */
  function ToLower(s: string): (r: string)
    ensures |r| == |s|
    ensures forall i :: 0 <= i < |s| ==> r[i] == LowerChar(s[i])
  {
    seq(|s|, i requires 0 <= i < |s| => LowerChar(s[i]))
  }

  /** The order argument, matched after lower-casing; anything else is not an order. */
  function ParseOrder(order: string): Option<Direction>
  {
    var lower := ToLower(order);
    if lower == AscendingOrder then Some(Ascending)
    else if lower == DescendingOrder then Some(Descending)
    else None
  }

  /** The order names are matched in any letter case, and nothing else is an order. */
  lemma ParseOrderCaseInsensitive(order: string)
    ensures ParseOrder(order) == Some(Ascending) <==>
      |order| == 3 && order[0] in "aA" && order[1] in "sS" && order[2] in "cC"
    ensures ParseOrder(order) == Some(Descending) <==>
      |order| == 4 && order[0] in "dD" && order[1] in "eE" && order[2] in "sS" && order[3] in "cC"
  {
    var lower := ToLower(order);
    if |order| == 3 && order[0] in "aA" && order[1] in "sS" && order[2] in "cC" {
      assert lower == AscendingOrder;
    }
    if |order| == 4 && order[0] in "dD" && order[1] in "eE" && order[2] in "sS" && order[3] in "cC" {
      assert lower == DescendingOrder;
    }
    if lower == AscendingOrder {
      assert LowerChar(order[0]) == 'a' && LowerChar(order[1]) == 's' && LowerChar(order[2]) == 'c';
    }
    if lower == DescendingOrder {
      assert LowerChar(order[0]) == 'd' && LowerChar(order[1]) == 'e';
      assert LowerChar(order[2]) == 's' && LowerChar(order[3]) == 'c';
    }
  }

  /** The "less" of the sort.Slice call for a direction: ascSort or descSort. */
  predicate Before(dir: Direction, a: Value, b: Value)
  {
    if dir == Ascending then Compare(a, b) == Less else Compare(a, b) == Greater
  }

  lemma BeforeAsymmetric(dir: Direction, a: Value, b: Value)
    ensures Before(dir, a, b) ==> !Before(dir, b, a)
  {
    CompareFlip(a, b);
  }

  /** The number a string of decimal digits denotes, most significant digit first. */
  function DigitsValue(s: string): nat
    requires forall i :: 0 <= i < |s| ==> '0' <= s[i] <= '9'
  {
    if s == [] then 0
    else DigitsValue(s[..|s| - 1]) * 10 + (s[|s| - 1] as int - '0' as int)
  }

  /** Decimal rendering of a natural number, as %d prints it: digits denoting n, without leading zeros. */
  function NatToString(n: nat): (r: string)
    ensures |r| >= 1
    ensures forall i :: 0 <= i < |r| ==> '0' <= r[i] <= '9'
    ensures DigitsValue(r) == n
    ensures r[0] == '0' ==> n == 0
  {
    if n < 10 then [(n + '0' as int) as char]
    else
      var r := NatToString(n / 10) + [(n % 10 + '0' as int) as char];
      assert r[..|r| - 1] == NatToString(n / 10);
      r
  }
}
