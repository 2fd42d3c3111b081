/** The filter clause evaluator of `src/helper.js` (used by the gRPC
    handlers) and its copy in `src/graphql/helpers.js` (used by the GraphQL
    resolvers), which differ only in the field names that trigger numeric
    and date coercion. */
module Filters {
  import opened Json
  import opened Text
  import opened Ordering

  /** Which copy of `applyFilters`: the gRPC helpers match ASCII field
      names, the GraphQL helpers the Polish spellings with diacritics. */
  datatype Variant = GrpcHelpers | GraphQlHelpers

  /** One `{ field, operation, value }` clause; every part is a string. */
  datatype Clause = Clause(field: string, operation: string, value: string)

  /** How an item fares against a list of clauses: it passes, it fails, or
      the evaluation throws "Unsupported filter operation". */
  datatype Outcome = Match | NoMatch | Unsupported

  /** A compared value after coercion: the raw value, a `parseFloat`
      result, or a freshly built `Date`. */
  datatype Operand = Raw(v: Value) | Number(x: Num) | Moment(t: Num)

  /** The substrings that switch a field to numeric comparison. */
  function NumericTriggers(variant: Variant): (ts: seq<string>)
    ensures |ts| == 6
  {
    match variant
    case GrpcHelpers => ["ilosc", "wartosc", "waga.brutto", "waga.netto", "ilosc_palet", "wymiary"]
    case GraphQlHelpers =>
      ["ilo\U{015B}\U{0107}", "warto\U{015B}\U{0107}", "waga.brutto", "waga.netto",
       "ilo\U{015B}\U{0107}_palet", "wymiary"]
  }

  /** The substrings that, besides the exact name "data_utworzenia",
      switch a field to date comparison. */
  function DateTriggers(variant: Variant): (ts: seq<string>)
    ensures |ts| == 3
  {
    match variant
    case GrpcHelpers => ["terminy.zaladunek", "terminy.wyjscie_statku", "terminy.przewidywane_dostarczenie"]
    case GraphQlHelpers =>
      ["terminy.za\U{0142}adunek", "terminy.wyj\U{015B}cie_statku", "terminy.przewidywane_dostarczenie"]
  }

  predicate NumericField(variant: Variant, field: string)
  {
    exists i | 0 <= i < |NumericTriggers(variant)| :: Includes(field, NumericTriggers(variant)[i])
  }

  predicate DateField(variant: Variant, field: string)
  {
    field == "data_utworzenia" || exists i | 0 <= i < |DateTriggers(variant)| :: Includes(field, DateTriggers(variant)[i])
  }

  /** The two operands a clause compares, item side first. Date coercion
      is applied after numeric coercion and replaces it, and it converts
      the raw values, not the parsed numbers. */
  function Coerce(rt: Runtime, variant: Variant, field: string, itemValue: Value, value: string): (pair: (Operand, Operand))
    ensures DateField(variant, field) ==> pair.0.Moment? && pair.1.Moment?
    ensures DateField(variant, field) ==> pair.0.t == rt.parseDate(itemValue) && pair.1.t == rt.parseDate(Str(value))
    ensures !DateField(variant, field) && NumericField(variant, field) ==>
              pair == (Number(rt.parseFloat(ToJsString(Some(itemValue)))), Number(rt.parseFloat(value)))
    ensures !DateField(variant, field) && !NumericField(variant, field) ==> pair == (Raw(itemValue), Raw(Str(value)))
  {
    if DateField(variant, field) then (Moment(rt.parseDate(itemValue)), Moment(rt.parseDate(Str(value))))
    else if NumericField(variant, field) then (Number(rt.parseFloat(ToJsString(Some(itemValue)))), Number(rt.parseFloat(value)))
    else (Raw(itemValue), Raw(Str(value)))
  }

  /** `a === b` on compared operands: two `Date`s are never the same
      object, and NaN is not equal to itself. */
  predicate Identical(a: Operand, b: Operand)
  {
    match (a, b)
    case (Raw(x), Raw(y)) => StrictEquals(Some(x), Some(y))
    case (Number(x), Number(y)) => x.Finite? && x == y
    case _ => false
  }

  /** `<` and `>` on compared operands; `Date`s compare by time value. */
  function Relate(rt: Runtime, a: Operand, b: Operand): Relation
  {
    match (a, b)
    case (Raw(x), Raw(y)) => CompareValues(rt.toNumber, Some(x), Some(y))
    case (Number(x), Number(y)) => CompareNums(x, y)
    case (Moment(x), Moment(y)) => CompareNums(x, y)
    case _ => Unordered
  }

  function Verdict(pass: bool): (o: Outcome)
    ensures o != Unsupported
    ensures o == Match <==> pass
  {
    if pass then Match else NoMatch
  }

  /** The ten supported operations. */
  predicate Supported(operation: string)
  {
    operation in ["EQUAL", "NOT_EQUAL", "CONTAINS", "NOT_CONTAINS", "GREATER", "GREATER_OR_EQUAL",
                  "LESS", "LESS_OR_EQUAL", "STARTS_WITH", "ENDS_WITH"]
  }

  /** The field a clause names, resolved on the item with optional chaining. */
  function Resolve(item: Value, field: string): Option<Value>
  {
    GetPath(Some(item), Split(field, '.'))
  }

  /** One clause on one item. The four string operations test the
      lower-cased string forms of the raw values; the comparisons use the
      coerced operands, and a comparison fails exactly when its negation
      holds (`GREATER` fails when `item <= value`, and so on). */
  function EvalClause(rt: Runtime, variant: Variant, item: Value, c: Clause): (o: Outcome)
    ensures Resolve(item, c.field).None? ==> o == NoMatch
    ensures o == Unsupported <==> Resolve(item, c.field).Some? && !Supported(c.operation)
  {
    var itemValue := Resolve(item, c.field);
    if itemValue.None? then NoMatch
    else
      var (x, y) := Coerce(rt, variant, c.field, itemValue.value, c.value);
      var text, pattern := Lower(ToJsString(itemValue)), Lower(c.value);
      match c.operation
      case "EQUAL" => Verdict(Identical(x, y))
      case "NOT_EQUAL" => Verdict(!Identical(x, y))
      case "CONTAINS" => Verdict(Includes(text, pattern))
      case "NOT_CONTAINS" => Verdict(!Includes(text, pattern))
      case "GREATER" => Verdict(!Le(Relate(rt, x, y)))
      case "GREATER_OR_EQUAL" => Verdict(!Lt(Relate(rt, x, y)))
      case "LESS" => Verdict(!Ge(Relate(rt, x, y)))
      case "LESS_OR_EQUAL" => Verdict(!Gt(Relate(rt, x, y)))
      case "STARTS_WITH" => Verdict(StartsWith(text, pattern))
      case "ENDS_WITH" => Verdict(EndsWith(text, pattern))
      case _ => Unsupported
  }

  /** The clauses in order, stopping at the first that does not pass. */
  function Evaluate(rt: Runtime, variant: Variant, item: Value, filters: seq<Clause>): (o: Outcome)
    decreases |filters|
  {
    if filters == [] then Match
    else
      var first := EvalClause(rt, variant, item, filters[0]);
      if first.Match? then Evaluate(rt, variant, item, filters[1..]) else first
  }

  /** `applyFilters(item, filters)`: the clause loop with its per-clause
      locals `compareValue` and `compareItemValue` and its early returns.
      `Unsupported` stands for the thrown error. */
  method ApplyFilters(rt: Runtime, variant: Variant, item: Value, filters: seq<Clause>) returns (o: Outcome)
    ensures o == Evaluate(rt, variant, item, filters)
  {
    for i := 0 to |filters|
      invariant Evaluate(rt, variant, item, filters) == Evaluate(rt, variant, item, filters[i..])
    {
      assert filters[i..][1..] == filters[i + 1..];
      var c := filters[i];
      var itemValue := GetPath(Some(item), Split(c.field, '.'));
      if itemValue.None? {
        return NoMatch;
      }

      var compareValue := Raw(Str(c.value));
      var compareItemValue := Raw(itemValue.value);
      if NumericField(variant, c.field) {
        compareValue := Number(rt.parseFloat(c.value));
        compareItemValue := Number(rt.parseFloat(ToJsString(itemValue)));
      }
      if DateField(variant, c.field) {
        compareValue := Moment(rt.parseDate(Str(c.value)));
        compareItemValue := Moment(rt.parseDate(itemValue.value));
      }

      var text, pattern := Lower(ToJsString(itemValue)), Lower(c.value);
      match c.operation
      case "EQUAL" =>
        if !Identical(compareItemValue, compareValue) { return NoMatch; }
      case "NOT_EQUAL" =>
        if Identical(compareItemValue, compareValue) { return NoMatch; }
      case "CONTAINS" =>
        if !Includes(text, pattern) { return NoMatch; }
      case "NOT_CONTAINS" =>
        if Includes(text, pattern) { return NoMatch; }
      case "GREATER" =>
        if Le(Relate(rt, compareItemValue, compareValue)) { return NoMatch; }
      case "GREATER_OR_EQUAL" =>
        if Lt(Relate(rt, compareItemValue, compareValue)) { return NoMatch; }
      case "LESS" =>
        if Ge(Relate(rt, compareItemValue, compareValue)) { return NoMatch; }
      case "LESS_OR_EQUAL" =>
        if Gt(Relate(rt, compareItemValue, compareValue)) { return NoMatch; }
      case "STARTS_WITH" =>
        if !StartsWith(text, pattern) { return NoMatch; }
      case "ENDS_WITH" =>
        if !EndsWith(text, pattern) { return NoMatch; }
      case _ =>
        return Unsupported;
    }
    return Match;
  }

  // ---------------------------------------------------------------------
  // Properties of the evaluator

  /** An item passes exactly when it passes every clause. */
  lemma {:induction false} EvaluateConjunction(rt: Runtime, variant: Variant, item: Value, filters: seq<Clause>)
    ensures Evaluate(rt, variant, item, filters) == Match <==>
            forall k :: 0 <= k < |filters| ==> EvalClause(rt, variant, item, filters[k]) == Match
    decreases |filters|
  {
    if filters != [] {
      EvaluateConjunction(rt, variant, item, filters[1..]);
      assert forall k :: 1 <= k < |filters| ==> filters[k] == filters[1..][k - 1];
    }
  }

  /** When an item does not pass, the outcome is that of the first clause
      it does not pass: a failure there, or the throw of an operation
      reached only after every earlier clause passed and on a field that
      resolves. */
  lemma {:induction false} EvaluateStopsAtFirst(rt: Runtime, variant: Variant, item: Value, filters: seq<Clause>, k: nat)
    requires k < |filters|
    requires forall j :: 0 <= j < k ==> EvalClause(rt, variant, item, filters[j]) == Match
    requires EvalClause(rt, variant, item, filters[k]) != Match
    ensures Evaluate(rt, variant, item, filters) == EvalClause(rt, variant, item, filters[k])
    decreases k
  {
    if k > 0 {
      assert forall j :: 0 <= j < k - 1 ==> filters[1..][j] == filters[j + 1];
      EvaluateStopsAtFirst(rt, variant, item, filters[1..], k - 1);
    }
  }

  /** The converse: any outcome other than a pass comes from such a first
      clause, so a throw means an unsupported operation was reached on a
      field that resolves, with every earlier clause passed. */
  lemma {:induction false} EvaluateBlame(rt: Runtime, variant: Variant, item: Value, filters: seq<Clause>)
    requires Evaluate(rt, variant, item, filters) != Match
    ensures exists k :: 0 <= k < |filters|
              && (forall j :: 0 <= j < k ==> EvalClause(rt, variant, item, filters[j]) == Match)
              && EvalClause(rt, variant, item, filters[k]) == Evaluate(rt, variant, item, filters)
    decreases |filters|
  {
    var first := EvalClause(rt, variant, item, filters[0]);
    if first.Match? {
      EvaluateBlame(rt, variant, item, filters[1..]);
      var k :| 0 <= k < |filters[1..]|
               && (forall j :: 0 <= j < k ==> EvalClause(rt, variant, item, filters[1..][j]) == Match)
               && EvalClause(rt, variant, item, filters[1..][k]) == Evaluate(rt, variant, item, filters[1..]);
      assert forall j :: 1 <= j < k + 1 ==> filters[j] == filters[1..][j - 1];
      assert filters[k + 1] == filters[1..][k];
    } else {
      assert EvalClause(rt, variant, item, filters[0]) == Evaluate(rt, variant, item, filters);
    }
  }

  /** The evaluator throws only on an unsupported operation reached on a
      field that resolves. */
  lemma ThrowNeedsReachedOperation(rt: Runtime, variant: Variant, item: Value, filters: seq<Clause>)
    requires Evaluate(rt, variant, item, filters) == Unsupported
    ensures exists k :: 0 <= k < |filters|
              && (forall j :: 0 <= j < k ==> EvalClause(rt, variant, item, filters[j]) == Match)
              && Resolve(item, filters[k].field).Some? && !Supported(filters[k].operation)
  {
    EvaluateBlame(rt, variant, item, filters);
  }

  /** `NOT_CONTAINS` passes exactly when `CONTAINS` fails. */
  lemma NotContainsNegates(rt: Runtime, variant: Variant, item: Value, field: string, value: string)
    requires Resolve(item, field).Some?
    ensures EvalClause(rt, variant, item, Clause(field, "NOT_CONTAINS", value)) == Match <==>
            EvalClause(rt, variant, item, Clause(field, "CONTAINS", value)) == NoMatch
  {
  }

  /** The string operations ignore the letter case of the clause value. */
  lemma StringOperationsIgnoreCase(rt: Runtime, variant: Variant, item: Value, field: string, operation: string, value: string)
    requires operation in ["CONTAINS", "NOT_CONTAINS", "STARTS_WITH", "ENDS_WITH"]
    ensures EvalClause(rt, variant, item, Clause(field, operation, value)) ==
            EvalClause(rt, variant, item, Clause(field, operation, Lower(value)))
  {
    LowerIdempotent(value);
  }

  /** On a date field `EQUAL` never passes and `NOT_EQUAL` always passes,
      because the two sides are distinct `Date` objects. */
  lemma DatesNeverIdentical(rt: Runtime, variant: Variant, item: Value, field: string, value: string)
    requires DateField(variant, field) && Resolve(item, field).Some?
    ensures EvalClause(rt, variant, item, Clause(field, "EQUAL", value)) == NoMatch
    ensures EvalClause(rt, variant, item, Clause(field, "NOT_EQUAL", value)) == Match
  {
  }

  /** On a numeric field whose clause value does not parse (NaN), every
      ordering comparison passes, since each rejects only when its negation
      holds and no comparison with NaN holds; EQUAL fails. */
  lemma UnparsableNumberPasses(rt: Runtime, variant: Variant, item: Value, field: string, operation: string, value: string)
    requires NumericField(variant, field) && !DateField(variant, field)
    requires Resolve(item, field).Some? && rt.parseFloat(value).NaN?
    requires operation in ["GREATER", "GREATER_OR_EQUAL", "LESS", "LESS_OR_EQUAL", "NOT_EQUAL"]
    ensures EvalClause(rt, variant, item, Clause(field, operation, value)) == Match
    ensures EvalClause(rt, variant, item, Clause(field, "EQUAL", value)) == NoMatch
  {
  }

  /** When the coerced operands are ordered, GREATER passes exactly when
      LESS_OR_EQUAL fails, and LESS exactly when GREATER_OR_EQUAL fails. */
  lemma ComparisonsComplement(rt: Runtime, variant: Variant, item: Value, field: string, value: string)
    requires Resolve(item, field).Some?
    requires var (x, y) := Coerce(rt, variant, field, Resolve(item, field).value, value);
             Relate(rt, x, y) != Unordered
    ensures EvalClause(rt, variant, item, Clause(field, "GREATER", value)) == Match <==>
            EvalClause(rt, variant, item, Clause(field, "LESS_OR_EQUAL", value)) == NoMatch
    ensures EvalClause(rt, variant, item, Clause(field, "LESS", value)) == Match <==>
            EvalClause(rt, variant, item, Clause(field, "GREATER_OR_EQUAL", value)) == NoMatch
  {
    ComparisonOutcome(rt, variant, item, Clause(field, "GREATER", value));
    ComparisonOutcome(rt, variant, item, Clause(field, "LESS_OR_EQUAL", value));
    ComparisonOutcome(rt, variant, item, Clause(field, "LESS", value));
    ComparisonOutcome(rt, variant, item, Clause(field, "GREATER_OR_EQUAL", value));
  }

  /** The four comparisons on a resolved field, each passing unless its
      negation holds between the coerced operands. */
  lemma ComparisonOutcome(rt: Runtime, variant: Variant, item: Value, c: Clause)
    requires Resolve(item, c.field).Some?
    ensures var (x, y) := Coerce(rt, variant, c.field, Resolve(item, c.field).value, c.value);
            var r := Relate(rt, x, y);
            && (c.operation == "GREATER" ==> EvalClause(rt, variant, item, c) == Verdict(!Le(r)))
            && (c.operation == "GREATER_OR_EQUAL" ==> EvalClause(rt, variant, item, c) == Verdict(!Lt(r)))
            && (c.operation == "LESS" ==> EvalClause(rt, variant, item, c) == Verdict(!Ge(r)))
            && (c.operation == "LESS_OR_EQUAL" ==> EvalClause(rt, variant, item, c) == Verdict(!Gt(r)))
  {
  }

  /** The ordering operations of a non-coerced string field compare
      character by character: "9" is greater than "10". */
  lemma StringFieldsCompareAsText(rt: Runtime, variant: Variant, item: Value, field: string)
    requires !NumericField(variant, field) && !DateField(variant, field)
    requires Resolve(item, field) == Some(Str("9"))
    ensures EvalClause(rt, variant, item, Clause(field, "GREATER", "10")) == Match
    ensures EvalClause(rt, variant, item, Clause(field, "LESS", "10")) == NoMatch
  {
    assert StrLess("10", "9");
    StrLessAsymmetric("10", "9");
  }

  /** The gRPC helpers coerce "ilosc" to a number; the GraphQL helpers do
      not, since their trigger is spelled "ilość". */
  lemma QuantityCoercionDiffers()
    ensures NumericField(GrpcHelpers, "ilosc")
    ensures !NumericField(GraphQlHelpers, "ilosc")
  {
    assert OccursAt("ilosc", NumericTriggers(GrpcHelpers)[0], 0);
    assert Includes("ilosc", NumericTriggers(GrpcHelpers)[0]);
    var ts := NumericTriggers(GraphQlHelpers);
    forall i | 0 <= i < |ts|
      ensures !Includes("ilosc", ts[i])
    {
      if i == 0 || i == 1 || i == 4 {
        MissingCharExcludes("ilosc", ts[i], '\U{015B}');
      } else if i == 2 || i == 3 {
        assert |ts[i]| > 5;
      } else {
        assert "ilosc"[0] != 'w';
        assert !OccursAt("ilosc", ts[i], 0);
      }
    }
  }

  /** Without the letters ś and ł in the field name the GraphQL helpers
      coerce only "waga.brutto", "waga.netto" and "wymiary" to numbers, and
      only "data_utworzenia" and "terminy.przewidywane_dostarczenie" to
      dates. Every field of the schema is written without them. */
  lemma GraphQlTriggersOnAsciiFields(field: string)
    requires '\U{015B}' !in field && '\U{0142}' !in field
    ensures NumericField(GraphQlHelpers, field) <==>
            Includes(field, "waga.brutto") || Includes(field, "waga.netto") || Includes(field, "wymiary")
    ensures DateField(GraphQlHelpers, field) <==>
            field == "data_utworzenia" || Includes(field, "terminy.przewidywane_dostarczenie")
  {
    var ns := NumericTriggers(GraphQlHelpers);
    MissingCharExcludes(field, ns[0], '\U{015B}');
    MissingCharExcludes(field, ns[1], '\U{015B}');
    MissingCharExcludes(field, ns[4], '\U{015B}');
    if Includes(field, "waga.brutto") { assert Includes(field, ns[2]); }
    if Includes(field, "waga.netto") { assert Includes(field, ns[3]); }
    if Includes(field, "wymiary") { assert Includes(field, ns[5]); }
    if NumericField(GraphQlHelpers, field) {
      var i :| 0 <= i < |ns| && Includes(field, ns[i]);
      assert i == 2 || i == 3 || i == 5;
    }
    var ds := DateTriggers(GraphQlHelpers);
    MissingCharExcludes(field, ds[0], '\U{0142}');
    MissingCharExcludes(field, ds[1], '\U{015B}');
    if Includes(field, "terminy.przewidywane_dostarczenie") { assert Includes(field, ds[2]); }
    if DateField(GraphQlHelpers, field) && field != "data_utworzenia" {
      var i :| 0 <= i < |ds| && Includes(field, ds[i]);
      assert i == 2;
    }
  }

  /** The gRPC helpers' triggers, written out. */
  lemma GrpcTriggers(field: string)
    ensures NumericField(GrpcHelpers, field) <==>
            Includes(field, "ilosc") || Includes(field, "wartosc") || Includes(field, "waga.brutto")
            || Includes(field, "waga.netto") || Includes(field, "ilosc_palet") || Includes(field, "wymiary")
    ensures DateField(GrpcHelpers, field) <==>
            field == "data_utworzenia" || Includes(field, "terminy.zaladunek")
            || Includes(field, "terminy.wyjscie_statku") || Includes(field, "terminy.przewidywane_dostarczenie")
  {
    var ns := NumericTriggers(GrpcHelpers);
    forall i | 0 <= i < |ns| && Includes(field, ns[i])
      ensures NumericField(GrpcHelpers, field)
    {
    }
    if Includes(field, "ilosc") { assert Includes(field, ns[0]); }
    if Includes(field, "wartosc") { assert Includes(field, ns[1]); }
    if Includes(field, "waga.brutto") { assert Includes(field, ns[2]); }
    if Includes(field, "waga.netto") { assert Includes(field, ns[3]); }
    if Includes(field, "ilosc_palet") { assert Includes(field, ns[4]); }
    if Includes(field, "wymiary") { assert Includes(field, ns[5]); }
    if NumericField(GrpcHelpers, field) {
      var i :| 0 <= i < |ns| && Includes(field, ns[i]);
      assert i in {0, 1, 2, 3, 4, 5};
    }
    var ds := DateTriggers(GrpcHelpers);
    if Includes(field, "terminy.zaladunek") { assert Includes(field, ds[0]); }
    if Includes(field, "terminy.wyjscie_statku") { assert Includes(field, ds[1]); }
    if Includes(field, "terminy.przewidywane_dostarczenie") { assert Includes(field, ds[2]); }
    if DateField(GrpcHelpers, field) && field != "data_utworzenia" {
      var i :| 0 <= i < |ds| && Includes(field, ds[i]);
      assert i in {0, 1, 2};
    }
  }

  // ---------------------------------------------------------------------
  // `array.filter(item => applyFilters(item, filters))`

  /** The records that pass, in their order; `None` when the evaluation
      throws on some record (the first such record stops the filter). */
  function Select(rt: Runtime, variant: Variant, items: seq<Record>, filters: seq<Clause>): (r: Option<seq<Record>>)
    decreases |items|
  {
    if items == [] then Some([])
    else
      var o := Evaluate(rt, variant, Obj(items[0]), filters);
      var rest := Select(rt, variant, items[1..], filters);
      if o.Unsupported? || rest.None? then None
      else if o.Match? then Some([items[0]] + rest.value)
      else rest
  }

  /** The filter throws exactly when some record's evaluation throws. */
  lemma {:induction false} SelectThrows(rt: Runtime, variant: Variant, items: seq<Record>, filters: seq<Clause>)
    ensures Select(rt, variant, items, filters).None? <==>
            exists i :: 0 <= i < |items| && Evaluate(rt, variant, Obj(items[i]), filters) == Unsupported
    decreases |items|
  {
    if items != [] {
      SelectThrows(rt, variant, items[1..], filters);
      assert forall i :: 1 <= i < |items| ==> items[i] == items[1..][i - 1];
      if exists i :: 1 <= i < |items| && Evaluate(rt, variant, Obj(items[i]), filters) == Unsupported {
        var i :| 1 <= i < |items| && Evaluate(rt, variant, Obj(items[i]), filters) == Unsupported;
        assert Evaluate(rt, variant, Obj(items[1..][i - 1]), filters) == Unsupported;
      }
    }
  }

  /** When it does not throw, the filter keeps the records that pass and
      nothing else (their order and repetitions: `SelectAppend`). */
  lemma {:induction false} SelectKeepsMatches(rt: Runtime, variant: Variant, items: seq<Record>, filters: seq<Clause>)
    requires Select(rt, variant, items, filters).Some?
    ensures var r := Select(rt, variant, items, filters).value;
            && |r| <= |items|
            && (forall x :: x in r ==> Evaluate(rt, variant, Obj(x), filters) == Match && x in items)
            && (forall i :: 0 <= i < |items| && Evaluate(rt, variant, Obj(items[i]), filters) == Match ==> items[i] in r)
    decreases |items|
  {
    if items != [] {
      SelectKeepsMatches(rt, variant, items[1..], filters);
      assert forall i :: 1 <= i < |items| ==> items[i] == items[1..][i - 1];
    }
  }

  /** Filtering a concatenation filters each part and concatenates the
      results, so the kept records come back in stored order, each as
      often as it is stored; a throw in either part makes the whole throw. */
  lemma {:induction false} SelectAppend(rt: Runtime, variant: Variant, a: seq<Record>, b: seq<Record>, filters: seq<Clause>)
    ensures Select(rt, variant, a + b, filters) ==
            if Select(rt, variant, a, filters).None? || Select(rt, variant, b, filters).None? then None
            else Some(Select(rt, variant, a, filters).value + Select(rt, variant, b, filters).value)
    decreases |a|
  {
    if a == [] {
      assert a + b == b;
      assert Select(rt, variant, a, filters) == Some([]);
      if Select(rt, variant, b, filters).Some? {
        assert [] + Select(rt, variant, b, filters).value == Select(rt, variant, b, filters).value;
      }
    } else {
      assert (a + b)[1..] == a[1..] + b;
      SelectAppend(rt, variant, a[1..], b, filters);
      SelectCons(rt, variant, a, filters);
      SelectCons(rt, variant, a + b, filters);
      var ra, rb := Select(rt, variant, a[1..], filters), Select(rt, variant, b, filters);
      if ra.Some? && rb.Some? {
        assert [a[0]] + (ra.value + rb.value) == ([a[0]] + ra.value) + rb.value;
      }
    }
  }

  /** The first step of the filter. */
  lemma SelectCons(rt: Runtime, variant: Variant, items: seq<Record>, filters: seq<Clause>)
    requires items != []
    ensures var o, rest := Evaluate(rt, variant, Obj(items[0]), filters), Select(rt, variant, items[1..], filters);
            Select(rt, variant, items, filters) ==
            if o.Unsupported? || rest.None? then None
            else if o.Match? then Some([items[0]] + rest.value) else rest
  {
  }

  /** Filtering one more record appends it exactly when it passes. */
  lemma SelectSnoc(rt: Runtime, variant: Variant, items: seq<Record>, x: Record, filters: seq<Clause>)
    ensures var o := Evaluate(rt, variant, Obj(x), filters);
            Select(rt, variant, items + [x], filters) ==
            if Select(rt, variant, items, filters).None? || o.Unsupported? then None
            else Some(Select(rt, variant, items, filters).value + (if o.Match? then [x] else []))
  {
    var o := Evaluate(rt, variant, Obj(x), filters);
    assert [x][0] == x && [x][1..] == [] && [x] + [] == [x];
    assert Select(rt, variant, [], filters) == Some([]);
    assert Select(rt, variant, [x], filters) ==
           if o.Unsupported? then None else Some(if o.Match? then [x] else []);
    SelectAppend(rt, variant, items, [x], filters);
  }

  /** Without clauses (an empty list, which is still truthy) every record
      is kept. */
  lemma {:induction false} SelectNoClauses(rt: Runtime, variant: Variant, items: seq<Record>)
    ensures Select(rt, variant, items, []) == Some(items)
    decreases |items|
  {
    if items != [] {
      SelectNoClauses(rt, variant, items[1..]);
      assert [items[0]] + items[1..] == items;
    }
  }
}
