/** The GraphQL resolvers of `src/graphql/resolvers.js`: three list
    queries, three lookups and nine mutations over the module-level arrays
    of orders, containers and goods. The arrays hold the inner records
    (each stored entry is `{ zlecenie }`, `{ kontener }` or `{ towar }`
    around an input object). */
module GraphQl {
  import opened Json
  import opened Ordering
  import opened Filters
  import opened Query
  import opened Store
  import opened Validators

  /** The property `createZlecenie` reads the loading port from: the
      Polish spelling with "ł". */
  const WrittenLoadingPort := "port_za\U{0142}adunku"
  /** The property the input type `TrasaInput` declares. */
  const SchemaLoadingPort := "port_zaladunku"

  /** A lookup by key: the first record holding it, or "404". */
  function Lookup(s: seq<Record>, field: string, key: Option<Value>): (reply: Reply)
    ensures reply.Item? || reply == Error("404")
    ensures reply == Error("404") <==> !Exists(s, field, key)
    ensures reply.Item? ==> reply.record == s[FindIndex(s, field, key)]
  {
    var found := Find(s, field, key);
    if found.None? then Error("404") else Item(found.value)
  }

  /** `createZlecenie` as a transition of the order array, reading the
      loading port from `loadingPort`: the order number, then the tax
      number, then both location codes (the second only when the first
      is valid), then uniqueness; each strict read may throw. */
  function CreateOrder(orders: seq<Record>, input: Record, loadingPort: string): (result: (Reply, seq<Record>))
    ensures !result.0.Item? ==> result.1 == orders
    ensures result.0.Item? ==> result == (Item(input), orders + [input])
    ensures result.0.Item? ==>
              && ValidOrderNumber(ToJsString(KeyOf(input, OrderKey)))
              && StrictPath(Some(Obj(input)), ["klient", "nip"]).Got?
              && ValidNip(ToJsString(StrictPath(Some(Obj(input)), ["klient", "nip"]).read))
              && StrictPath(Some(Obj(input)), ["trasa", loadingPort, "kod_UNLOCODE"]).Got?
              && ValidUnlocode(ToJsString(StrictPath(Some(Obj(input)), ["trasa", loadingPort, "kod_UNLOCODE"]).read))
              && StrictPath(Some(Obj(input)), ["trasa", "port_docelowy", "kod_UNLOCODE"]).Got?
              && ValidUnlocode(ToJsString(StrictPath(Some(Obj(input)), ["trasa", "port_docelowy", "kod_UNLOCODE"]).read))
              && !Exists(orders, OrderKey, KeyOf(input, OrderKey))
    ensures !ValidOrderNumber(ToJsString(KeyOf(input, OrderKey))) ==> result.0 == Error("400")
    ensures result.0 == Error("409") ==> Exists(orders, OrderKey, KeyOf(input, OrderKey))
  {
    var root := Some(Obj(input));
    if !ValidOrderNumber(ToJsString(KeyOf(input, OrderKey))) then (Error("400"), orders)
    else
      var nip := StrictPath(root, ["klient", "nip"]);
      if nip.TypeError? then (Threw, orders)
      else if !ValidNip(ToJsString(nip.read)) then (Error("400"), orders)
      else
        var from := StrictPath(root, ["trasa", loadingPort, "kod_UNLOCODE"]);
        if from.TypeError? then (Threw, orders)
        else if !ValidUnlocode(ToJsString(from.read)) then (Error("400"), orders)
        else
          var to := StrictPath(root, ["trasa", "port_docelowy", "kod_UNLOCODE"]);
          if to.TypeError? then (Threw, orders)
          else if !ValidUnlocode(ToJsString(to.read)) then (Error("400"), orders)
          else if Exists(orders, OrderKey, KeyOf(input, OrderKey)) then (Error("409"), orders)
          else (Item(input), orders + [input])
  }

  /** As written, an order whose number and tax number are valid and whose
      route is an object without the "ł" property (every route the input
      type admits) makes `createZlecenie` throw, and nothing is stored. */
  lemma CreateOrderAsWrittenThrows(orders: seq<Record>, input: Record)
    requires ValidOrderNumber(ToJsString(KeyOf(input, OrderKey)))
    requires "klient" in input && input["klient"].Obj?
    requires ValidNip(ToJsString(Get(Some(input["klient"]), "nip")))
    requires "trasa" in input && input["trasa"].Obj? && WrittenLoadingPort !in input["trasa"].fields
    ensures CreateOrder(orders, input, WrittenLoadingPort) == (Threw, orders)
  {
    var root := Some(Obj(input));
    assert StrictPath(root, ["klient", "nip"]) == Got(Get(Some(input["klient"]), "nip")) by {
      assert ["klient", "nip"][1..] == ["nip"];
      assert ["nip"][1..] == [];
    }
    var path := ["trasa", WrittenLoadingPort, "kod_UNLOCODE"];
    assert path[1..] == [WrittenLoadingPort, "kod_UNLOCODE"];
    assert path[1..][1..] == ["kod_UNLOCODE"];
    var trasa := Some(input["trasa"]);
    assert Get(trasa, WrittenLoadingPort).None?;
    assert StrictPath(None, ["kod_UNLOCODE"]) == TypeError;
    assert StrictPath(trasa, path[1..]) == TypeError;
    assert StrictPath(root, path) == TypeError;
  }

  /** With the property name the input type declares, an order with valid
      identifiers and a new number is appended exactly once, at the end,
      keys stay unique, and it is what a lookup then finds. */
  lemma CreateOrderAsIntendedAppends(orders: seq<Record>, input: Record)
    requires UniqueKeys(orders, OrderKey)
    requires OrderKey in input && input[OrderKey].Str? && ValidOrderNumber(input[OrderKey].s)
    requires StrictPath(Some(Obj(input)), ["klient", "nip"]).Got?
    requires ValidNip(ToJsString(StrictPath(Some(Obj(input)), ["klient", "nip"]).read))
    requires StrictPath(Some(Obj(input)), ["trasa", SchemaLoadingPort, "kod_UNLOCODE"]).Got?
    requires ValidUnlocode(ToJsString(StrictPath(Some(Obj(input)), ["trasa", SchemaLoadingPort, "kod_UNLOCODE"]).read))
    requires StrictPath(Some(Obj(input)), ["trasa", "port_docelowy", "kod_UNLOCODE"]).Got?
    requires ValidUnlocode(ToJsString(StrictPath(Some(Obj(input)), ["trasa", "port_docelowy", "kod_UNLOCODE"]).read))
    requires !Exists(orders, OrderKey, Some(input[OrderKey]))
    ensures var (reply, after) := CreateOrder(orders, input, SchemaLoadingPort);
            && reply == Item(input)
            && after == orders + [input]
            && UniqueKeys(after, OrderKey)
            && Lookup(after, OrderKey, Some(input[OrderKey])) == Item(input)
  {
    AppendUnique(orders, OrderKey, input);
    AppendThenFind(orders, OrderKey, input);
  }

  /** The GraphQL resolvers' state: the three module-level arrays. */
  class GraphQlApi {
    var orders: seq<Record>
    var containers: seq<Record>
    var goods: seq<Record>

    /** The arrays as loaded from the three data files. */
    constructor (orders0: seq<Record>, containers0: seq<Record>, goods0: seq<Record>)
      ensures orders == orders0 && containers == containers0 && goods == goods0
    {
      orders := orders0;
      containers := containers0;
      goods := goods0;
    }

    // -------------------------------------------------------------------
    // Queries

    /** `Query.zlecenia(filter, sort, page)`. */
    method Zlecenia(rt: Runtime, filter: Option<seq<Clause>>, sort: Option<SortInput>, page: Option<PageInput>)
      returns (r: Listing)
      ensures r == Pipeline(rt, GraphQlHelpers, orders, filter, sort, page)
    {
      r := RunList(rt, GraphQlHelpers, orders, filter, sort, page);
    }

    /** `Query.kontenery(filter, sort, page)`. */
    method Kontenery(rt: Runtime, filter: Option<seq<Clause>>, sort: Option<SortInput>, page: Option<PageInput>)
      returns (r: Listing)
      ensures r == Pipeline(rt, GraphQlHelpers, containers, filter, sort, page)
    {
      r := RunList(rt, GraphQlHelpers, containers, filter, sort, page);
    }

    /** `Query.towary(filter, sort, page)`. */
    method Towary(rt: Runtime, filter: Option<seq<Clause>>, sort: Option<SortInput>, page: Option<PageInput>)
      returns (r: Listing)
      ensures r == Pipeline(rt, GraphQlHelpers, goods, filter, sort, page)
    {
      r := RunList(rt, GraphQlHelpers, goods, filter, sort, page);
    }

    /** `Query.zlecenie(numer_zlecenia)`: "400" for a malformed number
      before any lookup, "404" when absent, else the first match. */
    method Zlecenie(numer: string) returns (reply: Reply)
      ensures !ValidOrderNumber(numer) ==> reply == Error("400")
      ensures ValidOrderNumber(numer) ==> reply == Lookup(orders, OrderKey, Some(Str(numer)))
    {
      if !ValidOrderNumber(numer) {
        return Error("400");
      }
      var found := Find(orders, OrderKey, Some(Str(numer)));
      if found.None? {
        return Error("404");
      }
      return Item(found.value);
    }

    /** `Query.kontener(numer_kontenera)`. */
    method Kontener(numer: string) returns (reply: Reply)
      ensures !ValidContainerNumber(numer) ==> reply == Error("400")
      ensures ValidContainerNumber(numer) ==> reply == Lookup(containers, ContainerKey, Some(Str(numer)))
    {
      if !ValidContainerNumber(numer) {
        return Error("400");
      }
      var found := Find(containers, ContainerKey, Some(Str(numer)));
      if found.None? {
        return Error("404");
      }
      return Item(found.value);
    }

    /** `Query.towar(numer_towaru)`: no format check. */
    method Towar(numer: string) returns (reply: Reply)
      ensures reply == Lookup(goods, GoodsKey, Some(Str(numer)))
    {
      var found := Find(goods, GoodsKey, Some(Str(numer)));
      if found.None? {
        return Error("404");
      }
      return Item(found.value);
    }

    // -------------------------------------------------------------------
    // Mutations

    /** `Mutation.createZlecenie(zlecenie)`, as written. */
    method CreateZlecenie(input: Record) returns (reply: Reply)
      modifies this
      ensures (reply, orders) == CreateOrder(old(orders), input, WrittenLoadingPort)
      ensures containers == old(containers) && goods == old(goods)
    {
      var root := Some(Obj(input));
      if !ValidOrderNumber(ToJsString(KeyOf(input, OrderKey))) {
        return Error("400");
      }
      var nip := StrictPath(root, ["klient", "nip"]);
      if nip.TypeError? {
        return Threw;
      }
      if !ValidNip(ToJsString(nip.read)) {
        return Error("400");
      }
      var from := StrictPath(root, ["trasa", WrittenLoadingPort, "kod_UNLOCODE"]);
      if from.TypeError? {
        return Threw;
      }
      if !ValidUnlocode(ToJsString(from.read)) {
        return Error("400");
      }
      var to := StrictPath(root, ["trasa", "port_docelowy", "kod_UNLOCODE"]);
      if to.TypeError? {
        return Threw;
      }
      if !ValidUnlocode(ToJsString(to.read)) {
        return Error("400");
      }
      if Exists(orders, OrderKey, KeyOf(input, OrderKey)) {
        return Error("409");
      }
      orders := orders + [input];
      return Item(input);
    }

    /** `Mutation.updateZlecenie(numer_zlecenia, zlecenie)`: the first match
      is replaced whole by the input. */
    method UpdateZlecenie(numer: string, input: Record) returns (reply: Reply)
      modifies this
      ensures containers == old(containers) && goods == old(goods)
      ensures !ValidOrderNumber(numer) ==> reply == Error("400") && orders == old(orders)
      ensures ValidOrderNumber(numer) && !Exists(old(orders), OrderKey, Some(Str(numer))) ==>
                reply == Error("404") && orders == old(orders)
      ensures ValidOrderNumber(numer) && Exists(old(orders), OrderKey, Some(Str(numer))) ==>
                reply == Item(input) && orders == old(orders)[FindIndex(old(orders), OrderKey, Some(Str(numer))) := input]
    {
      if !ValidOrderNumber(numer) {
        return Error("400");
      }
      var index := FindIndex(orders, OrderKey, Some(Str(numer)));
      if index == -1 {
        return Error("404");
      }
      orders := orders[index := input];
      return Item(input);
    }

    /** `Mutation.deleteZlecenie(numer_zlecenia)`: the first match is spliced out. */
    method DeleteZlecenie(numer: string) returns (d: Deletion)
      modifies this
      ensures containers == old(containers) && goods == old(goods)
      ensures !ValidOrderNumber(numer) ==> d == Deletion(false, "400") && orders == old(orders)
      ensures ValidOrderNumber(numer) && !Exists(old(orders), OrderKey, Some(Str(numer))) ==>
                d == Deletion(false, "404") && orders == old(orders)
      ensures ValidOrderNumber(numer) && Exists(old(orders), OrderKey, Some(Str(numer))) ==>
                d == Deletion(true, "200") && orders == RemoveAt(old(orders), FindIndex(old(orders), OrderKey, Some(Str(numer))))
    {
      if !ValidOrderNumber(numer) {
        return Deletion(false, "400");
      }
      var index := FindIndex(orders, OrderKey, Some(Str(numer)));
      if index == -1 {
        return Deletion(false, "404");
      }
      orders := RemoveAt(orders, index);
      return Deletion(true, "200");
    }

    /** `Mutation.createKontener(kontener)`: the container number, then uniqueness. */
    method CreateKontener(input: Record) returns (reply: Reply)
      modifies this
      ensures orders == old(orders) && goods == old(goods)
      ensures !ValidContainerNumber(ToJsString(KeyOf(input, ContainerKey))) ==>
                reply == Error("400") && containers == old(containers)
      ensures ValidContainerNumber(ToJsString(KeyOf(input, ContainerKey))) && Exists(old(containers), ContainerKey, KeyOf(input, ContainerKey)) ==>
                reply == Error("409") && containers == old(containers)
      ensures ValidContainerNumber(ToJsString(KeyOf(input, ContainerKey))) && !Exists(old(containers), ContainerKey, KeyOf(input, ContainerKey)) ==>
                reply == Item(input) && containers == old(containers) + [input]
    {
      if !ValidContainerNumber(ToJsString(KeyOf(input, ContainerKey))) {
        return Error("400");
      }
      if Exists(containers, ContainerKey, KeyOf(input, ContainerKey)) {
        return Error("409");
      }
      containers := containers + [input];
      return Item(input);
    }

    /** `Mutation.updateKontener(numer_kontenera, kontener)`: wholesale replacement. */
    method UpdateKontener(numer: string, input: Record) returns (reply: Reply)
      modifies this
      ensures orders == old(orders) && goods == old(goods)
      ensures !ValidContainerNumber(numer) ==> reply == Error("400") && containers == old(containers)
      ensures ValidContainerNumber(numer) && !Exists(old(containers), ContainerKey, Some(Str(numer))) ==>
                reply == Error("404") && containers == old(containers)
      ensures ValidContainerNumber(numer) && Exists(old(containers), ContainerKey, Some(Str(numer))) ==>
                reply == Item(input)
                && containers == old(containers)[FindIndex(old(containers), ContainerKey, Some(Str(numer))) := input]
    {
      if !ValidContainerNumber(numer) {
        return Error("400");
      }
      var index := FindIndex(containers, ContainerKey, Some(Str(numer)));
      if index == -1 {
        return Error("404");
      }
      containers := containers[index := input];
      return Item(input);
    }

    /** `Mutation.deleteKontener(numer_kontenera)`. */
    method DeleteKontener(numer: string) returns (d: Deletion)
      modifies this
      ensures orders == old(orders) && goods == old(goods)
      ensures !ValidContainerNumber(numer) ==> d == Deletion(false, "400") && containers == old(containers)
      ensures ValidContainerNumber(numer) && !Exists(old(containers), ContainerKey, Some(Str(numer))) ==>
                d == Deletion(false, "404") && containers == old(containers)
      ensures ValidContainerNumber(numer) && Exists(old(containers), ContainerKey, Some(Str(numer))) ==>
                d == Deletion(true, "200")
                && containers == RemoveAt(old(containers), FindIndex(old(containers), ContainerKey, Some(Str(numer))))
    {
      if !ValidContainerNumber(numer) {
        return Deletion(false, "400");
      }
      var index := FindIndex(containers, ContainerKey, Some(Str(numer)));
      if index == -1 {
        return Deletion(false, "404");
      }
      containers := RemoveAt(containers, index);
      return Deletion(true, "200");
    }

    /** `Mutation.createTowar(towar)`: uniqueness only, any number accepted. */
    method CreateTowar(input: Record) returns (reply: Reply)
      modifies this
      ensures orders == old(orders) && containers == old(containers)
      ensures Exists(old(goods), GoodsKey, KeyOf(input, GoodsKey)) ==> reply == Error("409") && goods == old(goods)
      ensures !Exists(old(goods), GoodsKey, KeyOf(input, GoodsKey)) ==> reply == Item(input) && goods == old(goods) + [input]
    {
      if Exists(goods, GoodsKey, KeyOf(input, GoodsKey)) {
        return Error("409");
      }
      goods := goods + [input];
      return Item(input);
    }

    /** `Mutation.updateTowar(numer_towaru, towar)`: wholesale replacement. */
    method UpdateTowar(numer: string, input: Record) returns (reply: Reply)
      modifies this
      ensures orders == old(orders) && containers == old(containers)
      ensures !Exists(old(goods), GoodsKey, Some(Str(numer))) ==> reply == Error("404") && goods == old(goods)
      ensures Exists(old(goods), GoodsKey, Some(Str(numer))) ==>
                reply == Item(input) && goods == old(goods)[FindIndex(old(goods), GoodsKey, Some(Str(numer))) := input]
    {
      var index := FindIndex(goods, GoodsKey, Some(Str(numer)));
      if index == -1 {
        return Error("404");
      }
      goods := goods[index := input];
      return Item(input);
    }

    /** `Mutation.deleteTowar(numer_towaru)`. */
    method DeleteTowar(numer: string) returns (d: Deletion)
      modifies this
      ensures orders == old(orders) && containers == old(containers)
      ensures !Exists(old(goods), GoodsKey, Some(Str(numer))) ==> d == Deletion(false, "404") && goods == old(goods)
      ensures Exists(old(goods), GoodsKey, Some(Str(numer))) ==>
                d == Deletion(true, "200") && goods == RemoveAt(old(goods), FindIndex(old(goods), GoodsKey, Some(Str(numer))))
    {
      var index := FindIndex(goods, GoodsKey, Some(Str(numer)));
      if index == -1 {
        return Deletion(false, "404");
      }
      goods := RemoveAt(goods, index);
      return Deletion(true, "200");
    }
  }
}
