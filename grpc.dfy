/** The gRPC handlers of `src/zleceniaResolver.js`,
    `src/kontenerReslover.js` and `src/towarResolver.js`. Each service owns
    the array imported from its data file and answers through a projection
    (`mapZlecenie`, `mapKontener`, `mapTowar`) that reads the record with
    strict member access, so any answer carrying a record may throw. */
module Grpc {
  import opened Json
  import opened Ordering
  import opened Filters
  import opened Query
  import opened Store
  import opened Validators
  import opened Projection

  /** A `List…` answer, `{ items, total_count }`, or the exception thrown
      while filtering or mapping. */
  datatype ListReply = ListReply(items: seq<Record>, totalCount: int) | ListThrew

  /** The reply of a handler that answers with `...map(record)`: the
      projected object, or the TypeError the projection raised. */
  function Answer(a: Access): (reply: Reply)
    requires a.Got? ==> a.read.Some? && a.read.value.Obj?
    ensures reply.Item? <==> a.Got?
    ensures reply.Item? ==> a.read == Some(Obj(reply.record))
    ensures !reply.Item? ==> reply == Reply.Threw
  {
    if a.TypeError? then Reply.Threw else Item(a.read.value.fields)
  }

  /** `records.map(map)` for the projection of shape `shape`: every record
      projected in order, or None when some projection throws. */
  function MapAll(records: seq<Record>, shape: Shape): (r: Option<seq<Record>>)
    requires shape.Node?
    ensures r.Some? ==> |r.value| == |records|
    ensures r.Some? ==> forall i :: 0 <= i < |records| ==> Project(Some(Obj(records[i])), shape) == Got(Some(Obj(r.value[i])))
    ensures r.None? <==> exists i :: 0 <= i < |records| && Project(Some(Obj(records[i])), shape).TypeError?
    decreases |records|
  {
    if records == [] then Some([])
    else
      var head := Project(Some(Obj(records[0])), shape);
      var tail := MapAll(records[1..], shape);
      assert forall i :: 1 <= i < |records| ==> records[i] == records[1..][i - 1];
      if head.TypeError? then None
      else if tail.None? then None
      else
        var r := [head.read.value.fields] + tail.value;
        assert forall i :: 1 <= i < |records| ==> r[i] == tail.value[i - 1];
        Some(r)
  }

  /** A `List…` handler: the list query of the shared pipeline, then the
      projection of every record, with `total_count` the number returned. */
  function ListResponse(rt: Runtime, data: seq<Record>, shape: Shape,
                        filter: Option<seq<Clause>>, sort: Option<SortInput>, page: Option<PageInput>): (r: ListReply)
    requires shape.Node?
    ensures r.ListReply? ==> r.totalCount == |r.items| <= |data|
    ensures r.ListReply? ==>
              var listed := Pipeline(rt, GrpcHelpers, data, filter, sort, page);
              && listed.Listed?
              && |r.items| == |listed.items|
              && forall i :: 0 <= i < |r.items| ==>
                   && listed.items[i] in data
                   && Project(Some(Obj(listed.items[i])), shape) == Got(Some(Obj(r.items[i])))
    ensures Pipeline(rt, GrpcHelpers, data, filter, sort, page).Failed? ==> r == ListThrew
  {
    var listed := Pipeline(rt, GrpcHelpers, data, filter, sort, page);
    if listed.Failed? then ListThrew
    else
      var mapped := MapAll(listed.items, shape);
      if mapped.None? then ListThrew else ListReply(mapped.value, |mapped.value|)
  }

  /** Every well-formed reply record maps to itself: feeding a `List…`
      answer back through the projection changes nothing. */
  lemma {:induction false} ListedItemsAreMapped(rt: Runtime, data: seq<Record>, shape: Shape,
                                                filter: Option<seq<Clause>>, sort: Option<SortInput>, page: Option<PageInput>)
    requires shape.Node? && WellFormed(shape)
    ensures var r := ListResponse(rt, data, shape, filter, sort, page);
            r.ListReply? ==> MapAll(r.items, shape) == Some(r.items)
  {
    var r := ListResponse(rt, data, shape, filter, sort, page);
    if r.ListReply? {
      var listed := Pipeline(rt, GrpcHelpers, data, filter, sort, page);
      forall i | 0 <= i < |r.items|
        ensures Project(Some(Obj(r.items[i])), shape) == Got(Some(Obj(r.items[i])))
      {
        ProjectIdempotent(Some(Obj(listed.items[i])), shape);
      }
      MappedAgain(r.items, shape);
    }
  }

  /** MapAll of records that each project onto themselves is the identity. */
  lemma {:induction false} MappedAgain(records: seq<Record>, shape: Shape)
    requires shape.Node?
    requires forall i :: 0 <= i < |records| ==> Project(Some(Obj(records[i])), shape) == Got(Some(Obj(records[i])))
    ensures MapAll(records, shape) == Some(records)
    decreases |records|
  {
    if records != [] {
      assert forall i :: 1 <= i < |records| ==> records[i] == records[1..][i - 1];
      MappedAgain(records[1..], shape);
      assert [records[0]] + records[1..] == records;
    }
  }

  /** The order service of `src/zleceniaResolver.js`. */
  class OrderService {
    var records: seq<Record>

    /** The orders of the data file. */
    constructor (data: seq<Record>)
      ensures records == data
    {
      records := data;
    }

    /** `GetZlecenie`: the permissive number check, then the first match, mapped. */
    method GetZlecenie(numer: string) returns (reply: Reply)
      ensures !PermissiveOrderNumber(Some(Str(numer))) ==> reply == Error("400")
      ensures PermissiveOrderNumber(Some(Str(numer))) && !Exists(records, OrderKey, Some(Str(numer))) ==> reply == Error("404")
      ensures PermissiveOrderNumber(Some(Str(numer))) && Exists(records, OrderKey, Some(Str(numer))) ==>
                reply == Answer(MapZlecenie(Some(Obj(records[FindIndex(records, OrderKey, Some(Str(numer)))]))))
    {
      if !PermissiveOrderNumber(Some(Str(numer))) {
        return Error("400");
      }
      var found := Find(records, OrderKey, Some(Str(numer)));
      if found.None? {
        return Error("404");
      }
      reply := Answer(MapZlecenie(Some(Obj(found.value))));
    }

    /** `ListZlecenia`. */
    method ListZlecenia(rt: Runtime, filter: Option<seq<Clause>>, sort: Option<SortInput>, page: Option<PageInput>)
      returns (r: ListReply)
      ensures r == ListResponse(rt, records, OrderShape(), filter, sort, page)
    {
      var listed := RunList(rt, GrpcHelpers, records, filter, sort, page);
      if listed.Failed? {
        return ListThrew;
      }
      var zlecenia := MapAll(listed.items, OrderShape());
      if zlecenia.None? {
        return ListThrew;
      }
      r := ListReply(zlecenia.value, |zlecenia.value|);
    }

    /** `CreateZlecenie`: a shallow copy of the message is checked, stored,
      and then mapped; the mapping may throw after the record is stored. */
    method CreateZlecenie(message: Option<Value>) returns (reply: Reply)
      modifies this
      ensures var copy := Spread(message);
              && (!PermissiveOrderNumber(KeyOf(copy, OrderKey)) ==> reply == Error("400") && records == old(records))
              && (PermissiveOrderNumber(KeyOf(copy, OrderKey)) && Exists(old(records), OrderKey, KeyOf(copy, OrderKey)) ==>
                    reply == Error("409") && records == old(records))
              && (PermissiveOrderNumber(KeyOf(copy, OrderKey)) && !Exists(old(records), OrderKey, KeyOf(copy, OrderKey)) ==>
                    records == old(records) + [copy] && reply == Answer(MapZlecenie(Some(Obj(copy)))))
    {
      var copy := Spread(message);
      if !PermissiveOrderNumber(KeyOf(copy, OrderKey)) {
        return Error("400");
      }
      if Exists(records, OrderKey, KeyOf(copy, OrderKey)) {
        return Error("409");
      }
      records := records + [copy];
      reply := Answer(MapZlecenie(Some(Obj(copy))));
    }

    /** `UpdateZlecenie`: the first match becomes the stored record spread
      with the message's properties, and is answered mapped. */
    method UpdateZlecenie(numer: string, message: Option<Value>) returns (reply: Reply)
      modifies this
      ensures !PermissiveOrderNumber(Some(Str(numer))) ==> reply == Error("400") && records == old(records)
      ensures PermissiveOrderNumber(Some(Str(numer))) && !Exists(old(records), OrderKey, Some(Str(numer))) ==>
                reply == Error("404") && records == old(records)
      ensures PermissiveOrderNumber(Some(Str(numer))) && Exists(old(records), OrderKey, Some(Str(numer))) ==>
                var i := FindIndex(old(records), OrderKey, Some(Str(numer)));
                var merged := Merge(old(records)[i], Spread(message));
                records == old(records)[i := merged] && reply == Answer(MapZlecenie(Some(Obj(merged))))
    {
      if !PermissiveOrderNumber(Some(Str(numer))) {
        return Error("400");
      }
      var index := FindIndex(records, OrderKey, Some(Str(numer)));
      if index == -1 {
        return Error("404");
      }
      records := records[index := Merge(records[index], Spread(message))];
      reply := Answer(MapZlecenie(Some(Obj(records[index]))));
    }

    /** `DeleteZlecenie`. */
    method DeleteZlecenie(numer: string) returns (d: Deletion)
      modifies this
      ensures !PermissiveOrderNumber(Some(Str(numer))) ==> d == Deletion(false, "400") && records == old(records)
      ensures PermissiveOrderNumber(Some(Str(numer))) && !Exists(old(records), OrderKey, Some(Str(numer))) ==>
                d == Deletion(false, "404") && records == old(records)
      ensures PermissiveOrderNumber(Some(Str(numer))) && Exists(old(records), OrderKey, Some(Str(numer))) ==>
                d == Deletion(true, "200") && records == RemoveAt(old(records), FindIndex(old(records), OrderKey, Some(Str(numer))))
    {
      if !PermissiveOrderNumber(Some(Str(numer))) {
        return Deletion(false, "400");
      }
      var index := FindIndex(records, OrderKey, Some(Str(numer)));
      if index == -1 {
        return Deletion(false, "404");
      }
      records := RemoveAt(records, index);
      return Deletion(true, "200");
    }
  }

  /** The container service of `src/kontenerReslover.js`. */
  class ContainerService {
    var records: seq<Record>

    /** The containers of the data file. */
    constructor (data: seq<Record>)
      ensures records == data
    {
      records := data;
    }

    /** `GetKontener`. */
    method GetKontener(numer: string) returns (reply: Reply)
      ensures !PermissiveContainerNumber(Some(Str(numer))) ==> reply == Error("400")
      ensures PermissiveContainerNumber(Some(Str(numer))) && !Exists(records, ContainerKey, Some(Str(numer))) ==> reply == Error("404")
      ensures PermissiveContainerNumber(Some(Str(numer))) && Exists(records, ContainerKey, Some(Str(numer))) ==>
                reply == Answer(MapKontener(Some(Obj(records[FindIndex(records, ContainerKey, Some(Str(numer)))]))))
    {
      if !PermissiveContainerNumber(Some(Str(numer))) {
        return Error("400");
      }
      var found := Find(records, ContainerKey, Some(Str(numer)));
      if found.None? {
        return Error("404");
      }
      reply := Answer(MapKontener(Some(Obj(found.value))));
    }

    /** `ListKontenery`. */
    method ListKontenery(rt: Runtime, filter: Option<seq<Clause>>, sort: Option<SortInput>, page: Option<PageInput>)
      returns (r: ListReply)
      ensures r == ListResponse(rt, records, ContainerShape(), filter, sort, page)
    {
      var listed := RunList(rt, GrpcHelpers, records, filter, sort, page);
      if listed.Failed? {
        return ListThrew;
      }
      var kontenery := MapAll(listed.items, ContainerShape());
      if kontenery.None? {
        return ListThrew;
      }
      r := ListReply(kontenery.value, |kontenery.value|);
    }

    /** `CreateKontener`. */
    method CreateKontener(message: Option<Value>) returns (reply: Reply)
      modifies this
      ensures var copy := Spread(message);
              && (!PermissiveContainerNumber(KeyOf(copy, ContainerKey)) ==> reply == Error("400") && records == old(records))
              && (PermissiveContainerNumber(KeyOf(copy, ContainerKey)) && Exists(old(records), ContainerKey, KeyOf(copy, ContainerKey)) ==>
                    reply == Error("409") && records == old(records))
              && (PermissiveContainerNumber(KeyOf(copy, ContainerKey)) && !Exists(old(records), ContainerKey, KeyOf(copy, ContainerKey)) ==>
                    records == old(records) + [copy] && reply == Answer(MapKontener(Some(Obj(copy)))))
    {
      var copy := Spread(message);
      if !PermissiveContainerNumber(KeyOf(copy, ContainerKey)) {
        return Error("400");
      }
      if Exists(records, ContainerKey, KeyOf(copy, ContainerKey)) {
        return Error("409");
      }
      records := records + [copy];
      reply := Answer(MapKontener(Some(Obj(copy))));
    }

    /** `UpdateKontener`. */
    method UpdateKontener(numer: string, message: Option<Value>) returns (reply: Reply)
      modifies this
      ensures !PermissiveContainerNumber(Some(Str(numer))) ==> reply == Error("400") && records == old(records)
      ensures PermissiveContainerNumber(Some(Str(numer))) && !Exists(old(records), ContainerKey, Some(Str(numer))) ==>
                reply == Error("404") && records == old(records)
      ensures PermissiveContainerNumber(Some(Str(numer))) && Exists(old(records), ContainerKey, Some(Str(numer))) ==>
                var i := FindIndex(old(records), ContainerKey, Some(Str(numer)));
                var merged := Merge(old(records)[i], Spread(message));
                records == old(records)[i := merged] && reply == Answer(MapKontener(Some(Obj(merged))))
    {
      if !PermissiveContainerNumber(Some(Str(numer))) {
        return Error("400");
      }
      var index := FindIndex(records, ContainerKey, Some(Str(numer)));
      if index == -1 {
        return Error("404");
      }
      records := records[index := Merge(records[index], Spread(message))];
      reply := Answer(MapKontener(Some(Obj(records[index]))));
    }

    /** `DeleteKontener`. */
    method DeleteKontener(numer: string) returns (d: Deletion)
      modifies this
      ensures !PermissiveContainerNumber(Some(Str(numer))) ==> d == Deletion(false, "400") && records == old(records)
      ensures PermissiveContainerNumber(Some(Str(numer))) && !Exists(old(records), ContainerKey, Some(Str(numer))) ==>
                d == Deletion(false, "404") && records == old(records)
      ensures PermissiveContainerNumber(Some(Str(numer))) && Exists(old(records), ContainerKey, Some(Str(numer))) ==>
                d == Deletion(true, "200") && records == RemoveAt(old(records), FindIndex(old(records), ContainerKey, Some(Str(numer))))
    {
      if !PermissiveContainerNumber(Some(Str(numer))) {
        return Deletion(false, "400");
      }
      var index := FindIndex(records, ContainerKey, Some(Str(numer)));
      if index == -1 {
        return Deletion(false, "404");
      }
      records := RemoveAt(records, index);
      return Deletion(true, "200");
    }
  }

  /** The goods service of `src/towarResolver.js`: no identifier check. */
  class GoodsService {
    var records: seq<Record>

    /** The goods of the data file. */
    constructor (data: seq<Record>)
      ensures records == data
    {
      records := data;
    }

    /** `GetTowar`. */
    method GetTowar(numer: string) returns (reply: Reply)
      ensures !Exists(records, GoodsKey, Some(Str(numer))) ==> reply == Error("404")
      ensures Exists(records, GoodsKey, Some(Str(numer))) ==>
                reply == Answer(MapTowar(Some(Obj(records[FindIndex(records, GoodsKey, Some(Str(numer)))]))))
    {
      var found := Find(records, GoodsKey, Some(Str(numer)));
      if found.None? {
        return Error("404");
      }
      reply := Answer(MapTowar(Some(Obj(found.value))));
    }

    /** `ListTowary`. */
    method ListTowary(rt: Runtime, filter: Option<seq<Clause>>, sort: Option<SortInput>, page: Option<PageInput>)
      returns (r: ListReply)
      ensures r == ListResponse(rt, records, GoodsShape(), filter, sort, page)
    {
      var listed := RunList(rt, GrpcHelpers, records, filter, sort, page);
      if listed.Failed? {
        return ListThrew;
      }
      var towary := MapAll(listed.items, GoodsShape());
      if towary.None? {
        return ListThrew;
      }
      r := ListReply(towary.value, |towary.value|);
    }

    /** `CreateTowar`: uniqueness only. */
    method CreateTowar(message: Option<Value>) returns (reply: Reply)
      modifies this
      ensures var copy := Spread(message);
              && (Exists(old(records), GoodsKey, KeyOf(copy, GoodsKey)) ==> reply == Error("409") && records == old(records))
              && (!Exists(old(records), GoodsKey, KeyOf(copy, GoodsKey)) ==>
                    records == old(records) + [copy] && reply == Answer(MapTowar(Some(Obj(copy)))))
    {
      var copy := Spread(message);
      if Exists(records, GoodsKey, KeyOf(copy, GoodsKey)) {
        return Error("409");
      }
      records := records + [copy];
      reply := Answer(MapTowar(Some(Obj(copy))));
    }

    /** `UpdateTowar`. */
    method UpdateTowar(numer: string, message: Option<Value>) returns (reply: Reply)
      modifies this
      ensures !Exists(old(records), GoodsKey, Some(Str(numer))) ==> reply == Error("404") && records == old(records)
      ensures Exists(old(records), GoodsKey, Some(Str(numer))) ==>
                var i := FindIndex(old(records), GoodsKey, Some(Str(numer)));
                var merged := Merge(old(records)[i], Spread(message));
                records == old(records)[i := merged] && reply == Answer(MapTowar(Some(Obj(merged))))
    {
      var index := FindIndex(records, GoodsKey, Some(Str(numer)));
      if index == -1 {
        return Error("404");
      }
      records := records[index := Merge(records[index], Spread(message))];
      reply := Answer(MapTowar(Some(Obj(records[index]))));
    }

    /** `DeleteTowar`. */
    method DeleteTowar(numer: string) returns (d: Deletion)
      modifies this
      ensures !Exists(old(records), GoodsKey, Some(Str(numer))) ==> d == Deletion(false, "404") && records == old(records)
      ensures Exists(old(records), GoodsKey, Some(Str(numer))) ==>
                d == Deletion(true, "200") && records == RemoveAt(old(records), FindIndex(old(records), GoodsKey, Some(Str(numer))))
    {
      var index := FindIndex(records, GoodsKey, Some(Str(numer)));
      if index == -1 {
        return Deletion(false, "404");
      }
      records := RemoveAt(records, index);
      return Deletion(true, "200");
    }
  }
}
