/** Ordering, sorting and slicing: JavaScript's relational operators on
    resolved values, the comparator the list queries pass to
    `Array.prototype.sort`, a stable sort standing for that library call,
    and `Array.prototype.slice`. */
module Ordering {
  import opened Json
  import opened Text

  /** A number produced by `parseFloat` or a `Date`'s time value. There is
      no infinity: a `Runtime` maps `parseFloat("Infinity")` to a finite value
      beyond every stored number, which keeps `<` and `===` on that data. */
  datatype Num = NaN | Finite(x: real)

  /** The outcome of JavaScript's abstract relational comparison of `a`
      with `b`: `a < b`, equal, `a > b`, or neither (a NaN was involved). */
  datatype Relation = Below | Same | Above | Unordered

  /** `a < b` */
  predicate Lt(r: Relation) { r == Below }
  /** `a <= b` */
  predicate Le(r: Relation) { r == Below || r == Same }
  /** `a > b` */
  predicate Gt(r: Relation) { r == Above }
  /** `a >= b` */
  predicate Ge(r: Relation) { r == Above || r == Same }

  function Flip(r: Relation): Relation
  {
    match r
    case Below => Above
    case Above => Below
    case _ => r
  }

  function CompareReals(a: real, b: real): (r: Relation)
    ensures r != Unordered
    ensures r == Same <==> a == b
    ensures r == Below <==> a < b
  {
    if a < b then Below else if a > b then Above else Same
  }

  /** Numbers compare numerically; NaN is unordered with everything. */
  function CompareNums(a: Num, b: Num): (r: Relation)
    ensures r == Unordered <==> a.NaN? || b.NaN?
    ensures r == Same <==> a.Finite? && a == b
    ensures r == Below <==> a.Finite? && b.Finite? && a.x < b.x
    ensures r == Above <==> a.Finite? && b.Finite? && a.x > b.x
  {
    if a.NaN? || b.NaN? then Unordered else CompareReals(a.x, b.x)
  }

  /** The host conversions the engine calls but whose algorithms are not
      modelled: `Number(s)` on a string (used by `<` on mixed operands),
      `parseFloat(s)`, and the time value of `new Date(v)`. */
  datatype Runtime = Runtime(toNumber: string -> Num, parseFloat: string -> Num, parseDate: Value -> Num)

  /** `ToPrimitive` with hint number: an object's `valueOf` is the object
      itself, so it falls back to `toString`, "[object Object]". */
  function ToPrimitive(v: Value): (p: Value)
    ensures !p.Obj?
    ensures !v.Obj? ==> p == v
  {
    if v.Obj? then Str("[object Object]") else v
  }

  /** `ToNumeric` of a primitive or `undefined`. */
  function ToNumeric(toNumber: string -> Num, v: Option<Value>): (x: Num)
    ensures v.None? ==> x.NaN?
  {
    match v
    case None => NaN
    case Some(Null) => Finite(0.0)
    case Some(Bool(b)) => Finite(if b then 1.0 else 0.0)
    case Some(Num(n)) => Finite(n as real)
    case Some(Str(s)) => toNumber(s)
    case Some(Obj(_)) => toNumber("[object Object]")
  }

  /** The order of two strings as JavaScript's `<` sees it. */
  function CompareStrings(x: string, y: string): (r: Relation)
    ensures r != Unordered
    ensures r == Below <==> StrLess(x, y)
    ensures r == Above <==> StrLess(y, x)
    ensures r == Same <==> x == y
  {
    StrLessTotal(x, y);
    StrLessAsymmetric(x, y);
    StrLessIrreflexive(x);
    if StrLess(x, y) then Below else if StrLess(y, x) then Above else Same
  }

  /** JavaScript's abstract relational comparison of two resolved values:
      both operands are made primitive; two strings compare character by character,
      anything else numerically, and `undefined` or a NaN leaves the
      operands unordered. */
  function CompareValues(toNumber: string -> Num, a: Option<Value>, b: Option<Value>): (r: Relation)
    ensures a.None? || b.None? ==> r == Unordered
    ensures (a.Some? && a.value.Str? && b.Some? && b.value.Str?) ==> r == CompareStrings(a.value.s, b.value.s)
    ensures (a.Some? && a.value.Num? && b.Some? && b.value.Num?) ==> r == CompareReals(a.value.n as real, b.value.n as real)
  {
    if a.None? || b.None? then Unordered
    else
      var x, y := ToPrimitive(a.value), ToPrimitive(b.value);
      if x.Str? && y.Str? then CompareStrings(x.s, y.s)
      else CompareNums(ToNumeric(toNumber, Some(x)), ToNumeric(toNumber, Some(y)))
  }

  /** Swapping the operands flips the outcome. */
  lemma CompareValuesFlip(toNumber: string -> Num, a: Option<Value>, b: Option<Value>)
    ensures CompareValues(toNumber, b, a) == Flip(CompareValues(toNumber, a, b))
  {
  }

  // ---------------------------------------------------------------------
  // The list queries' comparator

  /** The comparator the list queries hand to `sort` after resolving the
      sort field on both records:
      `if (a < b) return order === "ASC" ? -1 : 1;`
      `if (a > b) return order === "ASC" ? 1 : -1;  return 0;` */
  function QuerySign(r: Relation, order: string): (c: int)
    ensures c == 0 <==> r == Same || r == Unordered
    ensures order == "ASC" ==> (c < 0 <==> r == Below) && (c > 0 <==> r == Above)
    ensures order != "ASC" ==> (c < 0 <==> r == Above) && (c > 0 <==> r == Below)
  {
    if Lt(r) then (if order == "ASC" then -1 else 1)
    else if Gt(r) then (if order == "ASC" then 1 else -1)
    else 0
  }

  /** The sort key of a record: its field path resolved by optional chaining. */
  function SortKey(item: Value, path: seq<string>): Option<Value>
  {
    GetPath(Some(item), path)
  }

  /** The list queries' comparator on two records, sorting on `path`. */
  function QueryComparator(toNumber: string -> Num, path: seq<string>, order: string): (Record, Record) -> int
  {
    (a: Record, b: Record) => QuerySign(CompareValues(toNumber, SortKey(Obj(a), path), SortKey(Obj(b), path)), order)
  }

  // ---------------------------------------------------------------------
  // Stable insertion sort, standing for `Array.prototype.sort`

  /** Insert `x` before the first element that must follow it. */
  function Insert<T>(x: T, s: seq<T>, cmp: (T, T) -> int): (r: seq<T>)
    ensures multiset(r) == multiset(s) + multiset{x}
    ensures |r| == |s| + 1
    decreases |s|
  {
    if s == [] then [x]
    else if cmp(x, s[0]) < 0 then [x] + s
    else
      assert s == [s[0]] + s[1..];
      [s[0]] + Insert(x, s[1..], cmp)
  }

  /** Sort by inserting each element, in order, into the sorted prefix. */
  function SortWith<T>(s: seq<T>, cmp: (T, T) -> int): (r: seq<T>)
    ensures multiset(r) == multiset(s)
    ensures |r| == |s|
    decreases |s|
  {
    if s == [] then []
    else
      assert s == s[..|s| - 1] + [s[|s| - 1]];
      Insert(s[|s| - 1], SortWith(s[..|s| - 1], cmp), cmp)
  }

  /** No element is ordered strictly before one that precedes it. */
  ghost predicate SortedBy<T>(r: seq<T>, cmp: (T, T) -> int)
  {
    forall i, j :: 0 <= i < j < |r| ==> cmp(r[j], r[i]) >= 0
  }

  /** On the values `vs` the comparator is a total preorder: antisymmetric
      in sign and transitive. */
  ghost predicate TotalPreorderOn<T>(vs: seq<T>, cmp: (T, T) -> int)
  {
    && (forall a, b :: a in vs && b in vs ==> (cmp(a, b) < 0 <==> cmp(b, a) > 0))
    && (forall a, b, c :: a in vs && b in vs && c in vs && cmp(a, b) <= 0 && cmp(b, c) <= 0 ==> cmp(a, c) <= 0)
  }

  /** Every element of an insertion is the inserted value or one of `s`. */
  lemma {:induction false} InsertMembers<T>(x: T, s: seq<T>, cmp: (T, T) -> int)
    ensures forall y :: y in Insert(x, s, cmp) ==> y == x || y in s
    decreases |s|
  {
    if s != [] && cmp(x, s[0]) >= 0 {
      InsertMembers(x, s[1..], cmp);
    }
  }

  /** The preorder laws on a sequence hold on any sequence of its elements. */
  lemma PreorderOnSubset<T>(vs: seq<T>, ws: seq<T>, cmp: (T, T) -> int)
    requires TotalPreorderOn(vs, cmp)
    requires forall w :: w in ws ==> w in vs
    ensures TotalPreorderOn(ws, cmp)
  {
  }

  /** If `x` is ordered strictly before `first` and `y` is not, then `y`
      is not ordered strictly before `x`. */
  lemma PreorderStep<T>(vs: seq<T>, cmp: (T, T) -> int, first: T, x: T, y: T)
    requires TotalPreorderOn(vs, cmp)
    requires first in vs && x in vs && y in vs
    requires cmp(x, first) < 0 && cmp(y, first) >= 0
    ensures cmp(y, x) >= 0
  {
    assert cmp(first, x) > 0;
    assert cmp(first, y) <= 0;
  }

  lemma {:induction false} InsertSorted<T>(x: T, s: seq<T>, cmp: (T, T) -> int)
    requires TotalPreorderOn(s + [x], cmp)
    requires SortedBy(s, cmp)
    ensures SortedBy(Insert(x, s, cmp), cmp)
    decreases |s|
  {
    if s == [] {
    } else if cmp(x, s[0]) >= 0 {
      var tail := s[1..];
      PreorderOnSubset(s + [x], tail + [x], cmp);
      InsertSorted(x, tail, cmp);
      InsertSortedBehind(x, s, cmp);
    } else {
      forall j | 0 < j < |s|
        ensures cmp(s[j], x) >= 0
      {
        PreorderStep(s + [x], cmp, s[0], x, s[j]);
      }
      PreorderStep(s + [x], cmp, s[0], x, s[0]);
      assert Insert(x, s, cmp) == [x] + s;
    }
  }

  /** Putting in front of a sorted sequence an element that nothing in it
      is ordered before keeps it sorted. */
  lemma ConsSorted<T>(h: T, s: seq<T>, cmp: (T, T) -> int)
    requires SortedBy(s, cmp)
    requires forall j :: 0 <= j < |s| ==> cmp(s[j], h) >= 0
    ensures SortedBy([h] + s, cmp)
  {
    var r := [h] + s;
    forall i, j | 0 <= i < j < |r|
      ensures cmp(r[j], r[i]) >= 0
    {
      if i > 0 {
        assert r[i] == s[i - 1] && r[j] == s[j - 1];
      }
    }
  }

  /** When `x` goes behind the head, the head stays first and nothing after
      it is ordered before it. */
  lemma InsertSortedBehind<T>(x: T, s: seq<T>, cmp: (T, T) -> int)
    requires s != [] && cmp(x, s[0]) >= 0
    requires SortedBy(s, cmp)
    requires SortedBy(Insert(x, s[1..], cmp), cmp)
    ensures SortedBy(Insert(x, s, cmp), cmp)
  {
    var tail := s[1..];
    var ins := Insert(x, tail, cmp);
    InsertMembers(x, tail, cmp);
    forall j | 0 <= j < |ins|
      ensures cmp(ins[j], s[0]) >= 0
    {
      var y := ins[j];
      assert y in ins;
      if y != x {
        var k :| 0 <= k < |tail| && tail[k] == y;
        assert s[k + 1] == y;
      }
    }
    ConsSorted(s[0], ins, cmp);
  }

  /** Sorting with a comparator that is a total preorder on the input
      yields an ordered sequence. */
  lemma {:induction false} SortWithSorted<T>(s: seq<T>, cmp: (T, T) -> int)
    requires TotalPreorderOn(s, cmp)
    ensures SortedBy(SortWith(s, cmp), cmp)
    decreases |s|
  {
    if s != [] {
      var prefix := s[..|s| - 1];
      assert forall v :: v in prefix ==> v in s;
      SortWithSorted(prefix, cmp);
      var sorted := SortWith(prefix, cmp);
      assert multiset(sorted) == multiset(prefix);
      assert forall v :: v in sorted + [s[|s| - 1]] ==> v in s by {
        forall v | v in sorted + [s[|s| - 1]]
          ensures v in s
        {
          if v in sorted {
            assert v in multiset(sorted);
            assert v in prefix;
          }
        }
      }
      InsertSorted(s[|s| - 1], sorted, cmp);
    }
  }

  // ---------------------------------------------------------------------
  // `Array.prototype.slice(start, end)`

  /** The index `slice` starts or ends at for a relative position `p`. */
  function SliceIndex(p: int, len: nat): (k: nat)
    ensures k <= len
  {
    if p < 0 then (if len + p < 0 then 0 else len + p) else (if p < len then p else len)
  }

  /** `s.slice(start, end)`, negative positions counting from the end. */
  function Slice<T>(s: seq<T>, start: int, end: int): (r: seq<T>)
    ensures SliceIndex(start, |s|) < SliceIndex(end, |s|) ==> r == s[SliceIndex(start, |s|)..SliceIndex(end, |s|)]
    ensures SliceIndex(start, |s|) >= SliceIndex(end, |s|) ==> r == []
  {
    var from, to := SliceIndex(start, |s|), SliceIndex(end, |s|);
    if from < to then s[from..to] else []
  }

  /** With a non-negative offset and limit, `slice(offset, offset + limit)`
      holds the `min(limit, |s| - offset)` elements from position `offset`
      on, and nothing when the offset is at or past the end. */
  lemma PageWindow<T>(s: seq<T>, offset: int, limit: int)
    requires offset >= 0 && limit >= 0
    ensures var r := Slice(s, offset, offset + limit);
            && |r| == (if offset >= |s| then 0 else if limit < |s| - offset then limit else |s| - offset)
            && forall i :: 0 <= i < |r| ==> r[i] == s[offset + i]
  {
  }

  // ---------------------------------------------------------------------
  // What the list queries' sort promises

  /** Every record's sort key is a string. */
  ghost predicate StringKeys(items: seq<Record>, path: seq<string>)
  {
    forall i :: 0 <= i < |items| ==> StringKey(items[i], path)
  }

  ghost predicate StringKey(item: Record, path: seq<string>)
  {
    SortKey(Obj(item), path).Some? && SortKey(Obj(item), path).value.Str?
  }

  function KeyText(item: Record, path: seq<string>): string
    requires StringKey(item, path)
  {
    SortKey(Obj(item), path).value.s
  }

  /** On string keys the comparator says "not after" exactly when the keys
      are in the requested direction: ascending for "ASC", descending for
      any other order string. */
  lemma QueryComparatorOnStrings(toNumber: string -> Num, path: seq<string>, order: string, a: Record, b: Record)
    requires StringKey(a, path) && StringKey(b, path)
    ensures QueryComparator(toNumber, path, order)(a, b) <= 0 <==>
            if order == "ASC" then !StrLess(KeyText(b, path), KeyText(a, path))
            else !StrLess(KeyText(a, path), KeyText(b, path))
  {
  }

  lemma NotLessTransitive(a: string, b: string, c: string)
    requires !StrLess(b, a) && !StrLess(c, b)
    ensures !StrLess(c, a)
  {
    StrLessTotal(a, b);
    StrLessTotal(b, c);
    if a != b && b != c {
      StrLessTransitive(a, b, c);
      StrLessAsymmetric(a, c);
    }
  }

  /** With string keys the comparator is a total preorder on the records. */
  lemma QueryComparatorPreorder(toNumber: string -> Num, items: seq<Record>, path: seq<string>, order: string)
    requires StringKeys(items, path)
    ensures TotalPreorderOn(items, QueryComparator(toNumber, path, order))
  {
    var cmp := QueryComparator(toNumber, path, order);
    forall a, b | a in items && b in items
      ensures cmp(a, b) < 0 <==> cmp(b, a) > 0
    {
      CompareValuesFlip(toNumber, SortKey(Obj(a), path), SortKey(Obj(b), path));
    }
    forall a, b, c | a in items && b in items && c in items && cmp(a, b) <= 0 && cmp(b, c) <= 0
      ensures cmp(a, c) <= 0
    {
      QueryComparatorOnStrings(toNumber, path, order, a, b);
      QueryComparatorOnStrings(toNumber, path, order, b, c);
      QueryComparatorOnStrings(toNumber, path, order, a, c);
      var ka, kb, kc := KeyText(a, path), KeyText(b, path), KeyText(c, path);
      if order == "ASC" {
        NotLessTransitive(ka, kb, kc);
      } else {
        NotLessTransitive(kc, kb, ka);
      }
    }
  }

  /** The list queries' sort on string keys: a permutation of the records
      whose keys run ascending for "ASC" and descending otherwise. */
  lemma QuerySortOrdersStrings(toNumber: string -> Num, items: seq<Record>, path: seq<string>, order: string)
    requires StringKeys(items, path)
    ensures var r := SortWith(items, QueryComparator(toNumber, path, order));
            && multiset(r) == multiset(items)
            && StringKeys(r, path)
            && forall i, j :: 0 <= i < j < |r| ==>
                 if order == "ASC" then !StrLess(KeyText(r[j], path), KeyText(r[i], path))
                 else !StrLess(KeyText(r[i], path), KeyText(r[j], path))
  {
    var cmp := QueryComparator(toNumber, path, order);
    QueryComparatorPreorder(toNumber, items, path, order);
    SortWithSorted(items, cmp);
    var r := SortWith(items, cmp);
    forall i | 0 <= i < |r|
      ensures r[i] in items
    {
      assert r[i] in multiset(r);
    }
    forall i, j | 0 <= i < j < |r|
      ensures if order == "ASC" then !StrLess(KeyText(r[j], path), KeyText(r[i], path))
              else !StrLess(KeyText(r[i], path), KeyText(r[j], path))
    {
      assert cmp(r[j], r[i]) >= 0;
      CompareValuesFlip(toNumber, SortKey(Obj(r[i]), path), SortKey(Obj(r[j]), path));
      QueryComparatorOnStrings(toNumber, path, order, r[i], r[j]);
    }
  }

  // ---------------------------------------------------------------------
  // `sortByField` and `paginateResults` of the gRPC helpers

  /** The comparator of `sortByField`: equal keys (by `===`) tie; two
      numbers compare by difference; anything else by `localeCompare` of
      the string forms; all of it times -1 unless the order lower-cases to
      "asc". (JSON data holds no `Date` objects, so that branch is never
      taken.) */
  function FieldComparator(collate: (string, string) -> int, path: seq<string>, order: string): (Value, Value) -> int
  {
    (a: Value, b: Value) =>
      var x, y := SortKey(a, path), SortKey(b, path);
      var multiplier := if Lower(order) == "asc" then 1 else -1;
      if StrictEquals(x, y) then 0
      else if x.Some? && x.value.Num? && y.Some? && y.value.Num? then (x.value.n - y.value.n) * multiplier
      else collate(ToJsString(x), ToJsString(y)) * multiplier
  }

  /** `sortByField(array, field, order)`: a sorted copy; the argument, a
      value, is left as it was. */
  function SortByField(collate: (string, string) -> int, items: seq<Value>, field: string, order: string): (r: seq<Value>)
    ensures multiset(r) == multiset(items)
  {
    SortWith(items, FieldComparator(collate, Split(field, '.'), order))
  }

  /** Every record's sort key is a number. */
  ghost predicate NumberKeys(items: seq<Value>, path: seq<string>)
  {
    forall i :: 0 <= i < |items| ==> SortKey(items[i], path).Some? && SortKey(items[i], path).value.Num?
  }

  function KeyNumber(item: Value, path: seq<string>): int
    requires SortKey(item, path).Some? && SortKey(item, path).value.Num?
  {
    SortKey(item, path).value.n
  }

  /** On numeric keys the comparator of `sortByField` is the difference
      of the keys, negated unless the order is "asc". */
  lemma FieldComparatorOnNumbers(collate: (string, string) -> int, path: seq<string>, order: string, a: Value, b: Value)
    requires SortKey(a, path).Some? && SortKey(a, path).value.Num?
    requires SortKey(b, path).Some? && SortKey(b, path).value.Num?
    ensures FieldComparator(collate, path, order)(a, b) ==
            if Lower(order) == "asc" then KeyNumber(a, path) - KeyNumber(b, path)
            else KeyNumber(b, path) - KeyNumber(a, path)
  {
    var x, y := KeyNumber(a, path), KeyNumber(b, path);
    var multiplier := if Lower(order) == "asc" then 1 else -1;
    assert SortKey(a, path) == Some(Num(x)) && SortKey(b, path) == Some(Num(y));
    assert StrictEquals(SortKey(a, path), SortKey(b, path)) <==> x == y;
    assert FieldComparator(collate, path, order)(a, b) == if x == y then 0 else (x - y) * multiplier;
    assert (x - y) * -1 == y - x;
  }

  /** With numeric keys the comparator of `sortByField` is a total preorder. */
  lemma FieldComparatorPreorder(collate: (string, string) -> int, items: seq<Value>, path: seq<string>, order: string)
    requires NumberKeys(items, path)
    ensures TotalPreorderOn(items, FieldComparator(collate, path, order))
  {
    var cmp := FieldComparator(collate, path, order);
    forall a | a in items
      ensures SortKey(a, path).Some? && SortKey(a, path).value.Num?
    {
      var k :| 0 <= k < |items| && items[k] == a;
    }
    forall a, b | a in items && b in items
      ensures cmp(a, b) < 0 <==> cmp(b, a) > 0
    {
      FieldComparatorOnNumbers(collate, path, order, a, b);
      FieldComparatorOnNumbers(collate, path, order, b, a);
    }
    forall a, b, c | a in items && b in items && c in items && cmp(a, b) <= 0 && cmp(b, c) <= 0
      ensures cmp(a, c) <= 0
    {
      FieldComparatorOnNumbers(collate, path, order, a, b);
      FieldComparatorOnNumbers(collate, path, order, b, c);
      FieldComparatorOnNumbers(collate, path, order, a, c);
    }
  }

  /** On numeric keys `sortByField` orders ascending when the order is
      "asc" in any letter case, descending otherwise. */
  lemma SortByFieldOrdersNumbers(collate: (string, string) -> int, items: seq<Value>, field: string, order: string)
    requires NumberKeys(items, Split(field, '.'))
    ensures var r := SortByField(collate, items, field, order);
            var path := Split(field, '.');
            && NumberKeys(r, path)
            && forall i, j :: 0 <= i < j < |r| ==>
                 if Lower(order) == "asc" then KeyNumber(r[i], path) <= KeyNumber(r[j], path)
                 else KeyNumber(r[i], path) >= KeyNumber(r[j], path)
  {
    var path := Split(field, '.');
    var cmp := FieldComparator(collate, path, order);
    FieldComparatorPreorder(collate, items, path, order);
    SortWithSorted(items, cmp);
    var r := SortWith(items, cmp);
    forall i | 0 <= i < |r|
      ensures SortKey(r[i], path).Some? && SortKey(r[i], path).value.Num?
    {
      assert r[i] in multiset(r);
      var k :| 0 <= k < |items| && items[k] == r[i];
    }
    forall i, j | 0 <= i < j < |r|
      ensures if Lower(order) == "asc" then KeyNumber(r[i], path) <= KeyNumber(r[j], path)
              else KeyNumber(r[i], path) >= KeyNumber(r[j], path)
    {
      assert cmp(r[j], r[i]) >= 0;
      FieldComparatorOnNumbers(collate, path, order, r[j], r[i]);
    }
  }

  /** `sortByField(array, field)`: the order defaults to "asc", so
      numeric keys come back ascending. */
  function SortByFieldDefault(collate: (string, string) -> int, items: seq<Value>, field: string): (r: seq<Value>)
    ensures multiset(r) == multiset(items)
    ensures NumberKeys(items, Split(field, '.')) ==>
              && NumberKeys(r, Split(field, '.'))
              && forall i, j :: 0 <= i < j < |r| ==> KeyNumber(r[i], Split(field, '.')) <= KeyNumber(r[j], Split(field, '.'))
  {
    DefaultOrderAscends(collate, items, field);
    SortByField(collate, items, field, "asc")
  }

  lemma DefaultOrderAscends(collate: (string, string) -> int, items: seq<Value>, field: string)
    ensures var r, path := SortByField(collate, items, field, "asc"), Split(field, '.');
            NumberKeys(items, path) ==>
              && NumberKeys(r, path)
              && forall i, j :: 0 <= i < j < |r| ==> KeyNumber(r[i], path) <= KeyNumber(r[j], path)
  {
    if NumberKeys(items, Split(field, '.')) {
      assert Lower("asc") == "asc";
      SortByFieldOrdersNumbers(collate, items, field, "asc");
    }
  }

  /** `paginateResults(array, pageSize, pageNumber)`. */
  function PaginateResults(items: seq<Value>, pageSize: int, pageNumber: int): (r: seq<Value>)
  {
    var startIndex := (pageNumber - 1) * pageSize;
    Slice(items, startIndex, startIndex + pageSize)
  }

  /** A page holds at most `pageSize` elements, taken in order from
      position `(pageNumber - 1) * pageSize`. */
  lemma PageContents(items: seq<Value>, pageSize: int, pageNumber: int)
    requires pageSize >= 0 && pageNumber >= 1
    ensures var r := PaginateResults(items, pageSize, pageNumber);
            var start := (pageNumber - 1) * pageSize;
            && |r| <= pageSize
            && (start >= |items| ==> r == [])
            && forall i :: 0 <= i < |r| ==> r[i] == items[start + i]
  {
    var start := (pageNumber - 1) * pageSize;
    StartNotNegative(pageNumber - 1, pageSize);
    var r := Slice(items, start, start + pageSize);
    assert PaginateResults(items, pageSize, pageNumber) == r;
    PageWindow(items, start, pageSize);
    assert |r| <= pageSize;
    assert start >= |items| ==> |r| == 0;
  }

  /** `paginateResults(array)`: page 1 of size 10, the first ten elements. */
  function PaginateResultsDefault(items: seq<Value>): (r: seq<Value>)
    ensures r == items[..if |items| < 10 then |items| else 10]
  {
    PageWindow(items, 0, 10);
    PaginateResults(items, 10, 1)
  }

  lemma StartNotNegative(pages: int, size: int)
    requires pages >= 0 && size >= 0
    ensures pages * size >= 0
  {
  }
}
