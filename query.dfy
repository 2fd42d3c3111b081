/** The list queries shared by the GraphQL resolvers and the gRPC
    handlers: optional filter, then optional sort, then optional
    `slice(offset, offset + limit)`, over a fresh array of the stored
    records. */
module Query {
  import opened Json
  import opened Text
  import opened Ordering
  import opened Filters

  /** `{ field, order }`. */
  datatype SortInput = SortInput(field: string, order: string)

  /** `{ limit, offset }`; both are plain integers and may be negative. */
  datatype PageInput = PageInput(limit: int, offset: int)

  /** The records a list query returns, or the error the filter threw. */
  datatype Listing = Listed(items: seq<Record>) | Failed

  /** The filter step: every stored record when there is no filter. */
  function FilterStep(rt: Runtime, variant: Variant, data: seq<Record>, filter: Option<seq<Clause>>): (r: Option<seq<Record>>)
    ensures filter.None? ==> r == Some(data)
    ensures r.Some? ==> forall x :: x in r.value ==> x in data && (filter.Some? ==> Evaluate(rt, variant, Obj(x), filter.value) == Match)
    ensures r.Some? ==> |r.value| <= |data|
  {
    if filter.Some? then
      var kept := Select(rt, variant, data, filter.value);
      if kept.Some? then
        SelectKeepsMatches(rt, variant, data, filter.value);
        kept
      else kept
    else Some(data)
  }

  /** The sort step: the query comparator on the dotted field. */
  function SortStep(toNumber: string -> Num, s: seq<Record>, sort: Option<SortInput>): (r: seq<Record>)
    ensures multiset(r) == multiset(s) && |r| == |s|
    ensures forall x :: x in r ==> x in s
  {
    if sort.Some? then
      var r := SortWith(s, QueryComparator(toNumber, Split(sort.value.field, '.'), sort.value.order));
      assert forall x :: x in r ==> x in multiset(s);
      r
    else s
  }

  /** The page step: `slice(offset, offset + limit)`. */
  function PageStep(s: seq<Record>, page: Option<PageInput>): (r: seq<Record>)
    ensures |r| <= |s|
    ensures forall x :: x in r ==> x in s
  {
    if page.Some? then Slice(s, page.value.offset, page.value.offset + page.value.limit) else s
  }

  /** What a list query returns: every record it returns is a stored
      record that passes the filter, and without a filter it cannot throw. */
  function Pipeline(rt: Runtime, variant: Variant, data: seq<Record>,
                    filter: Option<seq<Clause>>, sort: Option<SortInput>, page: Option<PageInput>): (r: Listing)
    ensures filter.None? ==> r.Listed?
    ensures r.Listed? ==> forall x :: x in r.items ==> x in data && (filter.Some? ==> Evaluate(rt, variant, Obj(x), filter.value) == Match)
    ensures r.Listed? ==> |r.items| <= |data|
  {
    var filtered := FilterStep(rt, variant, data, filter);
    if filtered.None? then Failed
    else Listed(PageStep(SortStep(rt.toNumber, filtered.value, sort), page))
  }

  /** The body of a list query: `result` is reassigned by each step. */
  method RunList(rt: Runtime, variant: Variant, data: seq<Record>,
                 filter: Option<seq<Clause>>, sort: Option<SortInput>, page: Option<PageInput>) returns (r: Listing)
    ensures r == Pipeline(rt, variant, data, filter, sort, page)
  {
    var result := data;
    if filter.Some? {
      var kept := Select(rt, variant, result, filter.value);
      if kept.None? {
        return Failed;
      }
      result := kept.value;
    }
    if sort.Some? {
      var path := Split(sort.value.field, '.');
      result := SortWith(result, QueryComparator(rt.toNumber, path, sort.value.order));
    }
    if page.Some? {
      result := Slice(result, page.value.offset, page.value.offset + page.value.limit);
    }
    return Listed(result);
  }

  /** The query throws exactly when a filter is given and some stored
      record's evaluation throws. */
  lemma ListThrows(rt: Runtime, variant: Variant, data: seq<Record>,
                   filter: Option<seq<Clause>>, sort: Option<SortInput>, page: Option<PageInput>)
    ensures Pipeline(rt, variant, data, filter, sort, page).Failed? <==>
            filter.Some? && exists i :: 0 <= i < |data| && Evaluate(rt, variant, Obj(data[i]), filter.value) == Unsupported
  {
    if filter.Some? {
      SelectThrows(rt, variant, data, filter.value);
    }
  }

  /** With a non-negative page, at most `limit` records come back, and
      none when the offset is past the stored records. */
  lemma ListBounded(rt: Runtime, variant: Variant, data: seq<Record>,
                    filter: Option<seq<Clause>>, sort: Option<SortInput>, limit: int, offset: int)
    requires limit >= 0 && offset >= 0
    ensures var r := Pipeline(rt, variant, data, filter, sort, Some(PageInput(limit, offset)));
            r.Listed? ==> |r.items| <= limit && (offset >= |data| ==> r.items == [])
  {
    var filtered := FilterStep(rt, variant, data, filter);
    if filtered.Some? {
      PageWindow(SortStep(rt.toNumber, filtered.value, sort), offset, limit);
    }
  }

  /** Without filter, sort or page a list query returns the stored
      records as they are. */
  lemma ListEverything(rt: Runtime, variant: Variant, data: seq<Record>)
    ensures Pipeline(rt, variant, data, None, None, None) == Listed(data)
  {
  }

  /** Without sort or page a filtered list keeps stored order: storing one
      more record appends it to the listing exactly when it passes. */
  lemma ListUnsortedAppend(rt: Runtime, variant: Variant, data: seq<Record>, x: Record, filter: seq<Clause>)
    ensures var o := Evaluate(rt, variant, Obj(x), filter);
            var before := Pipeline(rt, variant, data, Some(filter), None, None);
            Pipeline(rt, variant, data + [x], Some(filter), None, None) ==
            if before.Failed? || o.Unsupported? then Failed
            else Listed(before.items + (if o.Match? then [x] else []))
  {
    SelectSnoc(rt, variant, data, x, filter);
  }

  /** A window of a sequence keeps the order of its elements. */
  lemma SliceKeepsOrder<T>(s: seq<T>, start: int, end: int)
    ensures var r, from := Slice(s, start, end), SliceIndex(start, |s|);
            from + |r| <= |s| && forall i :: 0 <= i < |r| ==> r[i] == s[from + i]
  {
  }

  /** A sort on a field that holds a string in every stored record
      returns the records ascending by that field when the order is "ASC",
      descending for any other order, and a page of the result keeps that
      order. */
  lemma ListSortedByStrings(rt: Runtime, variant: Variant, data: seq<Record>,
                            filter: Option<seq<Clause>>, sort: SortInput, page: Option<PageInput>)
    requires StringKeys(data, Split(sort.field, '.'))
    ensures var r := Pipeline(rt, variant, data, filter, Some(sort), page);
            var path := Split(sort.field, '.');
            r.Listed? ==> StringKeys(r.items, path) && forall i, j :: 0 <= i < j < |r.items| ==>
              if sort.order == "ASC" then !StrLess(KeyText(r.items[j], path), KeyText(r.items[i], path))
              else !StrLess(KeyText(r.items[i], path), KeyText(r.items[j], path))
  {
    var path := Split(sort.field, '.');
    var filtered := FilterStep(rt, variant, data, filter);
    if filtered.Some? {
      var f := filtered.value;
      forall i | 0 <= i < |f|
        ensures StringKey(f[i], path)
      {
        assert f[i] in f;
        var k :| 0 <= k < |data| && data[k] == f[i];
      }
      QuerySortOrdersStrings(rt.toNumber, f, path, sort.order);
      var sorted := SortStep(rt.toNumber, f, Some(sort));
      if page.Some? {
        SliceKeepsOrder(sorted, page.value.offset, page.value.offset + page.value.limit);
      }
    }
  }
}
