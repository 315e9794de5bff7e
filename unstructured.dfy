/**
 * The `sort` overload of custom_cel/unstructured.go: a list of Kubernetes
 * objects sorted by their metadata.creationTimestamp.
 *
 * A creation timestamp is read as an instant in seconds (a Timestamp
 * value); the RFC 3339 text form of the field is not parsed here.
 */
module Unstructured {
  import opened Wrappers
  import opened CelValues
  import opened Sorting

  /** The zero time.Time, 0001-01-01T00:00:00Z, in seconds from the Unix epoch. */
  const ZeroTime := -62135596800

  /**
   * GetCreationTimestamp: metadata.creationTimestamp, or the zero time when
   * the field is missing or not a timestamp.
   */
  function CreationTimestamp(item: Value): int
  {
    if item.Map? && "metadata" in item.fields && item.fields["metadata"].Map?
       && "creationTimestamp" in item.fields["metadata"].fields
       && item.fields["metadata"].fields["creationTimestamp"].Timestamp?
    then item.fields["metadata"].fields["creationTimestamp"].t
    else ZeroTime
  }

  /** ascSort (Before) or descSort (After) on creation timestamps. */
  function CreatedBefore(dir: Direction): (Value, Value) -> bool
  {
    (a: Value, b: Value) =>
      if dir == Ascending then CreationTimestamp(a) < CreationTimestamp(b)
      else CreationTimestamp(a) > CreationTimestamp(b)
  }

  /**
   * sortUnstructured(items, order): the receiver must be a list of
   * records (any other element stops the function), and the order must
   * name a direction.
   */
  function SortByCreation(items: Value, order: string): Outcome
  {
    if !items.List? then Err(NotAList)
    else
      match FirstWhere(items.items, NotRecord)
      case Some(i) => Err(ItemNotMap(i))
      case None =>
        match ParseOrder(order)
        case None => Err(UnknownOrder(order))
        case Some(dir) => Ok(List(InsertionSorted(items.items, CreatedBefore(dir))))
  }

  /** sortUnstructured: collects the records, sorts them in place and returns them. */
  method SortUnstructured(items: Value, order: string) returns (r: Outcome)
    ensures r == SortByCreation(items, order)
  {
    if !items.List? {
      return Err(NotAList);
    }
    var xs := items.items;
    var ordered := new Value[|xs|];
    var index := 0;
    while index < |xs|
      invariant 0 <= index <= |xs|
      invariant forall k :: 0 <= k < index ==> !NotRecord(xs[k]) && ordered[k] == xs[k]
    {
      if NotRecord(xs[index]) {
        ghost var f := FirstWhere(xs, NotRecord);
        assert f.Some? && f.value <= index;
        return Err(ItemNotMap(index));
      }
      ordered[index] := xs[index];
      index := index + 1;
    }
    assert ordered[..] == xs;
    assert FirstWhere(xs, NotRecord).None?;
    match ParseOrder(order) {
      case None =>
        return Err(UnknownOrder(order));
      case Some(dir) =>
        InsertionSort(ordered, CreatedBefore(dir));
        return Ok(List(ordered[..]));
    }
  }

  lemma CreatedBeforeAsymmetric(dir: Direction)
    ensures Asymmetric(CreatedBefore(dir))
  {
  }

  /**
   * A successful sort returns the same records, each as often as it
   * occurs, with creation timestamps in order: never decreasing for "asc",
   * never increasing for "desc".
   */
  lemma {:induction false} SortByCreationSorts(items: Value, order: string)
    requires SortByCreation(items, order).Ok?
    ensures items.List? && ParseOrder(order).Some?
    ensures var r := SortByCreation(items, order).value;
      && r.List?
      && multiset(r.items) == multiset(items.items)
      && forall i, j :: 0 <= i < j < |r.items| ==>
           if ParseOrder(order).value == Ascending
           then CreationTimestamp(r.items[i]) <= CreationTimestamp(r.items[j])
           else CreationTimestamp(r.items[i]) >= CreationTimestamp(r.items[j])
  {
    var dir := ParseOrder(order).value;
    var less := CreatedBefore(dir);
    var out := InsertionSorted(items.items, less);
    InsertionSortedPermutation(items.items, less);
    CreatedBeforeAsymmetric(dir);
    InsertionSortedAdjacentSorted(items.items, less);
    AdjacentSortedIsSorted(out, less);
  }
}
