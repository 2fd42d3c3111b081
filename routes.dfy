/** The Express routes of `src/routes/teams/zlecenia.js`,
    `src/routes/kontenery.js` and `src/routes/towary.js`. Each handler loads
    the whole data file, an array of wrapper documents (`{ zlecenie: … }`,
    `{ kontener: … }`, `{ towar: … }`), changes it and saves it back. The
    file is a field of the route class; a callback that reads
    `doc.wrapper.key` of a malformed document throws, and the handler's
    `catch` turns that into status 500. */
module Routes {
  import opened Json
  import opened Text
  import opened Ordering
  import opened Store

  /** The status code of a reply and the documents its body carries (the
      list, the one document, or the updated one; none for a message). */
  datatype Response = Response(status: int, body: seq<Value>)

  // ---------------------------------------------------------------------
  // Reading wrapped documents

  /** `doc.wrapper.key` without optional chaining. */
  function DocKey(doc: Value, wrapper: string, key: string): (a: Access)
    ensures a.TypeError? <==> doc == Null || Get(Some(doc), wrapper).None? || Get(Some(doc), wrapper) == Some(Null)
    ensures a.Got? ==> a.read == Get(Get(Some(doc), wrapper), key)
  {
    match Member(Some(doc), wrapper)
    case TypeError => TypeError
    case Got(w) => Member(w, key)
  }

  /** The callback `doc => doc.wrapper.key === id` returns true. */
  predicate Hit(doc: Value, wrapper: string, key: string, id: Option<Value>)
  {
    DocKey(doc, wrapper, key).Got? && StrictEquals(DocKey(doc, wrapper, key).read, id)
  }

  /** The callback returns false. */
  predicate Passed(doc: Value, wrapper: string, key: string, id: Option<Value>)
  {
    DocKey(doc, wrapper, key).Got? && !StrictEquals(DocKey(doc, wrapper, key).read, id)
  }

  /** A document the callback accepts for a defined key is an object whose
      wrapper property is an object. */
  lemma HitIsWrapped(doc: Value, wrapper: string, key: string, id: Option<Value>)
    requires id.Some? && Hit(doc, wrapper, key, id)
    ensures doc.Obj? && wrapper in doc.fields && doc.fields[wrapper].Obj?
  {
  }

  /** How `findIndex` / `find` with that callback ends: at the first
      document it accepts, past the end, or at the first document on which
      it throws. */
  datatype Scan = At(index: nat) | Missing | Crashed(at: nat)

  /** `docs.findIndex(doc => doc.wrapper.key === id)`, which stops at the
      first match, so later malformed documents are never read. */
  function ScanDocs(docs: seq<Value>, wrapper: string, key: string, id: Option<Value>): (r: Scan)
    ensures r.At? ==> r.index < |docs| && Hit(docs[r.index], wrapper, key, id)
                      && forall j :: 0 <= j < r.index ==> Passed(docs[j], wrapper, key, id)
    ensures r.Crashed? ==> r.at < |docs| && DocKey(docs[r.at], wrapper, key).TypeError?
                           && forall j :: 0 <= j < r.at ==> Passed(docs[j], wrapper, key, id)
    ensures r.Missing? <==> forall j :: 0 <= j < |docs| ==> Passed(docs[j], wrapper, key, id)
    decreases |docs|
  {
    if docs == [] then Missing
    else if DocKey(docs[0], wrapper, key).TypeError? then Crashed(0)
    else if Hit(docs[0], wrapper, key, id) then At(0)
    else
      assert forall j :: 1 <= j < |docs| ==> docs[j] == docs[1..][j - 1];
      match ScanDocs(docs[1..], wrapper, key, id)
      case At(i) => At(i + 1)
      case Missing => Missing
      case Crashed(i) => Crashed(i + 1)
  }

  /** A document appended under a key no document holds is the one a
      later lookup of that key finds. */
  lemma AppendedIsFound(docs: seq<Value>, wrapper: string, key: string, doc: Value, id: Option<Value>)
    requires ScanDocs(docs, wrapper, key, id).Missing?
    requires Hit(doc, wrapper, key, id)
    ensures ScanDocs(docs + [doc], wrapper, key, id) == At(|docs|)
  {
    var t := docs + [doc];
    assert forall j :: 0 <= j < |docs| ==> t[j] == docs[j];
    var r := ScanDocs(t, wrapper, key, id);
    assert !r.Missing? by {
      assert !Passed(t[|docs|], wrapper, key, id);
    }
  }

  /** After removing the match, a second removal of the same key finds
      nothing, when only one document held it. */
  lemma RemovedIsGone(docs: seq<Value>, wrapper: string, key: string, id: Option<Value>)
    requires ScanDocs(docs, wrapper, key, id).At?
    requires forall j :: 0 <= j < |docs| && j != ScanDocs(docs, wrapper, key, id).index ==> Passed(docs[j], wrapper, key, id)
    ensures ScanDocs(RemoveAt(docs, ScanDocs(docs, wrapper, key, id).index), wrapper, key, id).Missing?
  {
    var i := ScanDocs(docs, wrapper, key, id).index;
    var r := RemoveAt(docs, i);
    forall j | 0 <= j < |r|
      ensures Passed(r[j], wrapper, key, id)
    {
      assert r[j] == (if j < i then docs[j] else docs[j + 1]);
    }
  }

  /** `docs.filter(test)` where `test` may throw (None): every document is
      tested, so one that throws anywhere makes the whole filter throw. */
  function Keep(docs: seq<Value>, test: Value -> Option<bool>): (r: Option<seq<Value>>)
    ensures r.None? <==> exists i :: 0 <= i < |docs| && test(docs[i]).None?
    ensures r.Some? ==> forall d :: d in r.value <==> d in docs && test(d) == Some(true)
    ensures r.Some? ==> |r.value| <= |docs|
    decreases |docs|
  {
    if docs == [] then Some([])
    else
      var rest := Keep(docs[1..], test);
      assert forall j :: 1 <= j < |docs| ==> docs[j] == docs[1..][j - 1];
      assert forall d :: d in docs <==> d == docs[0] || d in docs[1..];
      match test(docs[0])
      case None => None
      case Some(b) =>
        if rest.None? then None
        else if b then Some([docs[0]] + rest.value)
        else rest
  }

  /** Filtering a concatenation filters each part and concatenates the
      results: the kept documents stay in file order, each as often as it
      is stored. */
  lemma {:induction false} KeepAppend(a: seq<Value>, b: seq<Value>, test: Value -> Option<bool>)
    ensures Keep(a + b, test) ==
            if Keep(a, test).None? || Keep(b, test).None? then None
            else Some(Keep(a, test).value + Keep(b, test).value)
    decreases |a|
  {
    if a == [] {
      assert a + b == b;
      assert Keep(a, test) == Some([]);
      if Keep(b, test).Some? {
        assert [] + Keep(b, test).value == Keep(b, test).value;
      }
    } else {
      var ra, rb := Keep(a[1..], test), Keep(b, test);
      assert (a + b)[0] == a[0];
      assert (a + b)[1..] == a[1..] + b;
      KeepAppend(a[1..], b, test);
      var rest := Keep(a[1..] + b, test);
      assert Keep(a + b, test) ==
             if test(a[0]).None? || rest.None? then None
             else if test(a[0]) == Some(true) then Some([a[0]] + rest.value) else rest;
      if test(a[0]) == Some(true) && ra.Some? && rb.Some? {
        assert [a[0]] + (ra.value + rb.value) == ([a[0]] + ra.value) + rb.value;
      }
    }
  }

  /** Filtering one more document appends it exactly when the test accepts it. */
  lemma KeepSnoc(docs: seq<Value>, d: Value, test: Value -> Option<bool>)
    ensures Keep(docs + [d], test) ==
            if Keep(docs, test).None? || test(d).None? then None
            else Some(Keep(docs, test).value + (if test(d) == Some(true) then [d] else []))
  {
    assert [d][0] == d && [d][1..] == [] && [d] + [] == [d];
    assert Keep([], test) == Some([]);
    assert Keep([d], test) ==
           if test(d).None? then None else Some(if test(d) == Some(true) then [d] else []);
    KeepAppend(docs, [d], test);
  }

  /** `doc => doc.wrapper.key === id` as a test that may throw. */
  function KeyTest(wrapper: string, key: string, id: Option<Value>): (test: Value -> Option<bool>)
    ensures forall d :: test(d) == Some(true) <==> Hit(d, wrapper, key, id)
    ensures forall d :: test(d).None? <==> DocKey(d, wrapper, key).TypeError?
  {
    d => if DocKey(d, wrapper, key).TypeError? then None else Some(StrictEquals(DocKey(d, wrapper, key).read, id))
  }

  /** `o => o.zlecenie.status.toLowerCase() === status`: throws unless the
      stored status is a string. */
  function StatusTest(status: string): (test: Value -> Option<bool>)
    ensures forall d :: test(d).Some? <==>
              DocKey(d, "zlecenie", "status").Got? && DocKey(d, "zlecenie", "status").read.Some?
              && DocKey(d, "zlecenie", "status").read.value.Str?
    ensures forall d :: test(d).Some? ==> (test(d).value <==> Lower(DocKey(d, "zlecenie", "status").read.value.s) == status)
  {
    d => match DocKey(d, "zlecenie", "status")
         case Got(Some(Str(s))) => Some(Lower(s) == status)
         case _ => None
  }

  /** An order whose stored status is the requested one, in any case, is
      listed, whenever the filter does not throw. */
  lemma StatusIgnoresCase(docs: seq<Value>, query: string, d: Value, stored: string)
    requires d in docs
    requires DocKey(d, "zlecenie", "status") == Got(Some(Str(stored)))
    requires Lower(stored) == Lower(query)
    ensures var r := Keep(docs, StatusTest(Lower(query)));
            r.Some? ==> d in r.value
  {
  }

  /** The required properties `body.wrapper?.key` are all truthy. */
  function HasRequired(body: Record, wrapper: string, keys: seq<string>): (ok: bool)
    ensures ok <==> forall i :: 0 <= i < |keys| ==> Truthy(GetPath(Some(Obj(body)), [wrapper, keys[i]]))
    decreases |keys|
  {
    if keys == [] then true
    else
      assert forall i :: 1 <= i < |keys| ==> keys[i] == keys[1..][i - 1];
      Truthy(GetPath(Some(Obj(body)), [wrapper, keys[0]])) && HasRequired(body, wrapper, keys[1..])
  }

  /** `{ wrapper: { ...doc.wrapper, ...updates.wrapper } }`: a new document
      with the wrapper only, the patch's properties over the stored ones. */
  function MergeWrapped(doc: Value, wrapper: string, updates: Record): (r: Value)
    ensures r.Obj? && r.fields.Keys == {wrapper} && r.fields[wrapper].Obj?
    ensures var merged := r.fields[wrapper].fields;
            && merged.Keys == Spread(Get(Some(doc), wrapper)).Keys + Spread(Get(Some(Obj(updates)), wrapper)).Keys
            && (forall k :: k in Spread(Get(Some(Obj(updates)), wrapper)) ==> merged[k] == Spread(Get(Some(Obj(updates)), wrapper))[k])
            && (forall k :: k in Spread(Get(Some(doc), wrapper)) && k !in Spread(Get(Some(Obj(updates)), wrapper)) ==>
                  merged[k] == Spread(Get(Some(doc), wrapper))[k])
  {
    Obj(map[wrapper := Obj(Merge(Spread(Get(Some(doc), wrapper)), Spread(Get(Some(Obj(updates)), wrapper))))])
  }

  /** A patch body without the wrapper object leaves a document that holds
      only its wrapper object unchanged. */
  lemma MergeWithoutPatch(doc: Value, wrapper: string, updates: Record)
    requires doc.Obj? && doc.fields.Keys == {wrapper} && doc.fields[wrapper].Obj?
    requires wrapper !in updates || !updates[wrapper].Obj?
    ensures MergeWrapped(doc, wrapper, updates) == doc
  {
    var r := MergeWrapped(doc, wrapper, updates);
    assert r.fields[wrapper].fields == doc.fields[wrapper].fields;
    assert r.fields == doc.fields;
  }

  /** Patching a document twice with the same body is patching it once. */
  lemma MergeWrappedIdempotent(doc: Value, wrapper: string, updates: Record)
    ensures MergeWrapped(MergeWrapped(doc, wrapper, updates), wrapper, updates) == MergeWrapped(doc, wrapper, updates)
  {
    var once := MergeWrapped(doc, wrapper, updates);
    var patch := Spread(Get(Some(Obj(updates)), wrapper));
    assert Spread(Get(Some(once), wrapper)) == Merge(Spread(Get(Some(doc), wrapper)), patch);
    MergeIdempotent(Spread(Get(Some(doc), wrapper)), patch);
  }

  // ---------------------------------------------------------------------
  // src/routes/teams/zlecenia.js

  const OrderFields := ["numer_zlecenia", "status", "klient", "trasa"]

  /** The order routes over `dane/zlecenia.json`. */
  class OrderRoutes {
    /** The documents the data file holds. */
    var file: seq<Value>

    constructor (documents: seq<Value>)
      ensures file == documents
    {
      file := documents;
    }

    /** GET /teams: with a non-empty status the orders whose lower-cased
      status equals the lower-cased parameter, and 404 when there are none;
      without one, every order. */
    method ListOrders(status: Option<string>) returns (res: Response)
      ensures var wanted := if status.Some? then Lower(status.value) else "";
              && (wanted == "" ==> res == Response(200, file))
              && (wanted != "" && Keep(file, StatusTest(wanted)).None? ==> res == Response(500, []))
              && (wanted != "" && Keep(file, StatusTest(wanted)) == Some([]) ==> res == Response(404, []))
              && (wanted != "" && Keep(file, StatusTest(wanted)).Some? && Keep(file, StatusTest(wanted)) != Some([]) ==>
                    res == Response(200, Keep(file, StatusTest(wanted)).value))
    {
      var orders := file;
      var wanted := if status.Some? then Lower(status.value) else "";
      if wanted == "" {
        return Response(200, orders);
      }
      var filtered := Keep(orders, StatusTest(wanted));
      if filtered.None? {
        return Response(500, []);
      }
      if |filtered.value| == 0 {
        return Response(404, []);
      }
      return Response(200, filtered.value);
    }

    /** GET /teams/:id. */
    method GetOrder(id: string) returns (res: Response)
      ensures var scan := ScanDocs(file, "zlecenie", OrderKey, Some(Str(id)));
              && (scan.Crashed? ==> res == Response(500, []))
              && (scan.Missing? ==> res == Response(404, []))
              && (scan.At? ==> res == Response(200, [file[scan.index]]))
    {
      var orders := file;
      var scan := ScanDocs(orders, "zlecenie", OrderKey, Some(Str(id)));
      if scan.Crashed? {
        return Response(500, []);
      }
      if scan.Missing? {
        return Response(404, []);
      }
      return Response(200, [orders[scan.index]]);
    }

    /** PUT /teams/:id: a falsy `status` is refused before the file is read;
      otherwise only `zlecenie.status` of the first match changes. */
    method PutOrderStatus(id: string, body: Record) returns (res: Response)
      modifies this
      ensures var status := Get(Some(Obj(body)), "status");
              var scan := ScanDocs(old(file), "zlecenie", OrderKey, Some(Str(id)));
              && (!Truthy(status) ==> res == Response(400, []) && file == old(file))
              && (Truthy(status) && scan.Crashed? ==> res == Response(500, []) && file == old(file))
              && (Truthy(status) && scan.Missing? ==> res == Response(404, []) && file == old(file))
              && (Truthy(status) && scan.At? ==>
                    var doc := old(file)[scan.index];
                    && doc.Obj? && "zlecenie" in doc.fields && doc.fields["zlecenie"].Obj?
                    && var updated := Obj(doc.fields["zlecenie" := Obj(doc.fields["zlecenie"].fields["status" := status.value])]);
                    && file == old(file)[scan.index := updated]
                    && res == Response(200, [updated]))
    {
      var status := Get(Some(Obj(body)), "status");
      if !Truthy(status) {
        return Response(400, []);
      }
      var orders := file;
      var scan := ScanDocs(orders, "zlecenie", OrderKey, Some(Str(id)));
      if scan.Crashed? {
        return Response(500, []);
      }
      if scan.Missing? {
        return Response(404, []);
      }
      var doc := orders[scan.index];
      HitIsWrapped(doc, "zlecenie", OrderKey, Some(Str(id)));
      var zlecenie := doc.fields["zlecenie"];
      orders := orders[scan.index := Obj(doc.fields["zlecenie" := Obj(zlecenie.fields["status" := status.value])])];
      file := orders;
      return Response(200, [orders[scan.index]]);
    }

    /** POST /teams/add: the four required properties, then a duplicate
      number is refused with 400, else the body is appended as given. */
    method AddOrder(body: Record) returns (res: Response)
      modifies this
      ensures var number := GetPath(Some(Obj(body)), ["zlecenie", OrderKey]);
              var scan := ScanDocs(old(file), "zlecenie", OrderKey, number);
              && (!HasRequired(body, "zlecenie", OrderFields) ==> res == Response(400, []) && file == old(file))
              && (HasRequired(body, "zlecenie", OrderFields) && scan.Crashed? ==> res == Response(500, []) && file == old(file))
              && (HasRequired(body, "zlecenie", OrderFields) && scan.At? ==> res == Response(400, []) && file == old(file))
              && (HasRequired(body, "zlecenie", OrderFields) && scan.Missing? ==>
                    res == Response(201, []) && file == old(file) + [Obj(body)])
    {
      if !HasRequired(body, "zlecenie", OrderFields) {
        return Response(400, []);
      }
      var orders := file;
      var scan := ScanDocs(orders, "zlecenie", OrderKey, GetPath(Some(Obj(body)), ["zlecenie", OrderKey]));
      if scan.Crashed? {
        return Response(500, []);
      }
      if scan.At? {
        return Response(400, []);
      }
      orders := orders + [Obj(body)];
      file := orders;
      return Response(201, []);
    }

    /** DELETE /teams/:id: the first match is spliced out. */
    method DeleteOrder(id: string) returns (res: Response)
      modifies this
      ensures var scan := ScanDocs(old(file), "zlecenie", OrderKey, Some(Str(id)));
              && (scan.Crashed? ==> res == Response(500, []) && file == old(file))
              && (scan.Missing? ==> res == Response(404, []) && file == old(file))
              && (scan.At? ==> res == Response(200, []) && file == RemoveAt(old(file), scan.index))
    {
      var orders := file;
      var scan := ScanDocs(orders, "zlecenie", OrderKey, Some(Str(id)));
      if scan.Crashed? {
        return Response(500, []);
      }
      if scan.Missing? {
        return Response(404, []);
      }
      orders := RemoveAt(orders, scan.index);
      file := orders;
      return Response(200, []);
    }

    /** PATCH /teams/:id: an empty body is refused before the file is read;
      otherwise the first match becomes `{ zlecenie: { ...old, ...updates.zlecenie } }`. */
    method PatchOrder(id: string, body: Record) returns (res: Response)
      modifies this
      ensures var scan := ScanDocs(old(file), "zlecenie", OrderKey, Some(Str(id)));
              && (|body| == 0 ==> res == Response(400, []) && file == old(file))
              && (|body| != 0 && scan.Crashed? ==> res == Response(500, []) && file == old(file))
              && (|body| != 0 && scan.Missing? ==> res == Response(404, []) && file == old(file))
              && (|body| != 0 && scan.At? ==>
                    var updated := MergeWrapped(old(file)[scan.index], "zlecenie", body);
                    file == old(file)[scan.index := updated] && res == Response(200, [updated]))
    {
      if |body| == 0 {
        return Response(400, []);
      }
      var orders := file;
      var scan := ScanDocs(orders, "zlecenie", OrderKey, Some(Str(id)));
      if scan.Crashed? {
        return Response(500, []);
      }
      if scan.Missing? {
        return Response(404, []);
      }
      orders := orders[scan.index := MergeWrapped(orders[scan.index], "zlecenie", body)];
      file := orders;
      return Response(200, [orders[scan.index]]);
    }
  }

  // ---------------------------------------------------------------------
  // src/routes/kontenery.js: containers are looked up by their order number

  const ContainerFields := [OrderKey, ContainerKey]

  /** The container routes over `dane/kontenery.json`. */
  class ContainerRoutes {
    /** The documents the data file holds. */
    var file: seq<Value>

    constructor (documents: seq<Value>)
      ensures file == documents
    {
      file := documents;
    }

    /** GET /games: the first twenty documents in stored order. */
    method ListContainers() returns (res: Response)
      ensures res.status == 200
      ensures |res.body| == (if |file| < 20 then |file| else 20)
      ensures res.body == file[..|res.body|]
    {
      var containers := file;
      var limited := Slice(containers, 0, 20);
      return Response(200, limited);
    }

    /** GET /games/:id, keyed by `kontener.numer_zlecenia`. */
    method GetContainer(id: string) returns (res: Response)
      ensures var scan := ScanDocs(file, "kontener", OrderKey, Some(Str(id)));
              && (scan.Crashed? ==> res == Response(500, []))
              && (scan.Missing? ==> res == Response(404, []))
              && (scan.At? ==> res == Response(200, [file[scan.index]]))
    {
      var containers := file;
      var scan := ScanDocs(containers, "kontener", OrderKey, Some(Str(id)));
      if scan.Crashed? {
        return Response(500, []);
      }
      if scan.Missing? {
        return Response(404, []);
      }
      return Response(200, [containers[scan.index]]);
    }

    /** POST /games/add: both numbers required, uniqueness on the order number. */
    method AddContainer(body: Record) returns (res: Response)
      modifies this
      ensures var number := GetPath(Some(Obj(body)), ["kontener", OrderKey]);
              var scan := ScanDocs(old(file), "kontener", OrderKey, number);
              && (!HasRequired(body, "kontener", ContainerFields) ==> res == Response(400, []) && file == old(file))
              && (HasRequired(body, "kontener", ContainerFields) && scan.Crashed? ==> res == Response(500, []) && file == old(file))
              && (HasRequired(body, "kontener", ContainerFields) && scan.At? ==> res == Response(400, []) && file == old(file))
              && (HasRequired(body, "kontener", ContainerFields) && scan.Missing? ==>
                    res == Response(201, []) && file == old(file) + [Obj(body)])
    {
      if !HasRequired(body, "kontener", ContainerFields) {
        return Response(400, []);
      }
      var containers := file;
      var scan := ScanDocs(containers, "kontener", OrderKey, GetPath(Some(Obj(body)), ["kontener", OrderKey]));
      if scan.Crashed? {
        return Response(500, []);
      }
      if scan.At? {
        return Response(400, []);
      }
      containers := containers + [Obj(body)];
      file := containers;
      return Response(201, []);
    }

    /** PATCH /games/update/:id: no empty-body check. */
    method PatchContainer(id: string, body: Record) returns (res: Response)
      modifies this
      ensures var scan := ScanDocs(old(file), "kontener", OrderKey, Some(Str(id)));
              && (scan.Crashed? ==> res == Response(500, []) && file == old(file))
              && (scan.Missing? ==> res == Response(404, []) && file == old(file))
              && (scan.At? ==>
                    var updated := MergeWrapped(old(file)[scan.index], "kontener", body);
                    file == old(file)[scan.index := updated] && res == Response(200, [updated]))
    {
      var containers := file;
      var scan := ScanDocs(containers, "kontener", OrderKey, Some(Str(id)));
      if scan.Crashed? {
        return Response(500, []);
      }
      if scan.Missing? {
        return Response(404, []);
      }
      containers := containers[scan.index := MergeWrapped(containers[scan.index], "kontener", body)];
      file := containers;
      return Response(200, [containers[scan.index]]);
    }

    /** DELETE /games/delete/:id. */
    method DeleteContainer(id: string) returns (res: Response)
      modifies this
      ensures var scan := ScanDocs(old(file), "kontener", OrderKey, Some(Str(id)));
              && (scan.Crashed? ==> res == Response(500, []) && file == old(file))
              && (scan.Missing? ==> res == Response(404, []) && file == old(file))
              && (scan.At? ==> res == Response(200, []) && file == RemoveAt(old(file), scan.index) && |file| == |old(file)| - 1)
    {
      var containers := file;
      var scan := ScanDocs(containers, "kontener", OrderKey, Some(Str(id)));
      if scan.Crashed? {
        return Response(500, []);
      }
      if scan.Missing? {
        return Response(404, []);
      }
      containers := RemoveAt(containers, scan.index);
      file := containers;
      return Response(200, []);
    }
  }

  // ---------------------------------------------------------------------
  // src/routes/towary.js

  /** The required properties of a product body; the quantity is spelled
      with the Polish "ś". */
  const ProductFields := [GoodsKey, "nazwa", "ilo\U{015B}\U{0107}", "jednostka"]

  /** A product body in the shape the other transports use, with `ilosc`
      and without `ilość`, is refused. */
  lemma ProductNeedsDiacriticQuantity(body: Record)
    requires "towar" in body && body["towar"].Obj?
    requires "ilo\U{015B}\U{0107}" !in body["towar"].fields
    ensures !HasRequired(body, "towar", ProductFields)
  {
    var quantity := ProductFields[2];
    var path := ["towar", quantity];
    assert path[1..] == [quantity] && path[1..][1..] == [];
    var towar := Get(Some(Obj(body)), "towar");
    assert Get(towar, quantity).None?;
    assert GetPath(Some(Obj(body)), path) == GetPath(towar, [quantity]) == GetPath(None, []);
  }

  /** The goods routes over `dane/towary.json`. */
  class GoodsRoutes {
    /** The documents the data file holds. */
    var file: seq<Value>

    constructor (documents: seq<Value>)
      ensures file == documents
    {
      file := documents;
    }

    /** GET /towary: with a non-empty unit the goods whose `jednostka` is
      exactly that string, and 404 when there are none; else every document. */
    method ListProducts(unit: Option<string>) returns (res: Response)
      ensures unit.None? || unit == Some("") ==> res == Response(200, file)
      ensures unit.Some? && unit.value != "" ==>
                var kept := Keep(file, KeyTest("towar", "jednostka", Some(Str(unit.value))));
                && (kept.None? ==> res == Response(500, []))
                && (kept == Some([]) ==> res == Response(404, []))
                && (kept.Some? && kept != Some([]) ==> res == Response(200, kept.value))
    {
      var products := file;
      if unit.Some? && unit.value != "" {
        var filtered := Keep(products, KeyTest("towar", "jednostka", Some(Str(unit.value))));
        if filtered.None? {
          return Response(500, []);
        }
        if |filtered.value| > 0 {
          return Response(200, filtered.value);
        }
        return Response(404, []);
      }
      return Response(200, products);
    }

    /** GET /towary/:id. */
    method GetProduct(id: string) returns (res: Response)
      ensures var scan := ScanDocs(file, "towar", GoodsKey, Some(Str(id)));
              && (scan.Crashed? ==> res == Response(500, []))
              && (scan.Missing? ==> res == Response(404, []))
              && (scan.At? ==> res == Response(200, [file[scan.index]]))
    {
      var products := file;
      var scan := ScanDocs(products, "towar", GoodsKey, Some(Str(id)));
      if scan.Crashed? {
        return Response(500, []);
      }
      if scan.Missing? {
        return Response(404, []);
      }
      return Response(200, [products[scan.index]]);
    }

    /** POST /towary/add: four required properties, then uniqueness. */
    method AddProduct(body: Record) returns (res: Response)
      modifies this
      ensures var number := GetPath(Some(Obj(body)), ["towar", GoodsKey]);
              var scan := ScanDocs(old(file), "towar", GoodsKey, number);
              && (!HasRequired(body, "towar", ProductFields) ==> res == Response(400, []) && file == old(file))
              && (HasRequired(body, "towar", ProductFields) && scan.Crashed? ==> res == Response(500, []) && file == old(file))
              && (HasRequired(body, "towar", ProductFields) && scan.At? ==> res == Response(400, []) && file == old(file))
              && (HasRequired(body, "towar", ProductFields) && scan.Missing? ==>
                    res == Response(201, []) && file == old(file) + [Obj(body)])
    {
      if !HasRequired(body, "towar", ProductFields) {
        return Response(400, []);
      }
      var products := file;
      var scan := ScanDocs(products, "towar", GoodsKey, GetPath(Some(Obj(body)), ["towar", GoodsKey]));
      if scan.Crashed? {
        return Response(500, []);
      }
      if scan.At? {
        return Response(400, []);
      }
      products := products + [Obj(body)];
      file := products;
      return Response(201, []);
    }

    /** PUT /towary/update/:id: the required properties are checked before
      the lookup, then the match is replaced by the body whole, whatever
      number the body carries. */
    method PutProduct(id: string, body: Record) returns (res: Response)
      modifies this
      ensures var scan := ScanDocs(old(file), "towar", GoodsKey, Some(Str(id)));
              && (!HasRequired(body, "towar", ProductFields) ==> res == Response(400, []) && file == old(file))
              && (HasRequired(body, "towar", ProductFields) && scan.Crashed? ==> res == Response(500, []) && file == old(file))
              && (HasRequired(body, "towar", ProductFields) && scan.Missing? ==> res == Response(404, []) && file == old(file))
              && (HasRequired(body, "towar", ProductFields) && scan.At? ==>
                    res == Response(200, [Obj(body)]) && file == old(file)[scan.index := Obj(body)])
    {
      if !HasRequired(body, "towar", ProductFields) {
        return Response(400, []);
      }
      var products := file;
      var scan := ScanDocs(products, "towar", GoodsKey, Some(Str(id)));
      if scan.Crashed? {
        return Response(500, []);
      }
      if scan.Missing? {
        return Response(404, []);
      }
      products := products[scan.index := Obj(body)];
      file := products;
      return Response(200, [products[scan.index]]);
    }

    /** PATCH /towary/update/:id. */
    method PatchProduct(id: string, body: Record) returns (res: Response)
      modifies this
      ensures var scan := ScanDocs(old(file), "towar", GoodsKey, Some(Str(id)));
              && (scan.Crashed? ==> res == Response(500, []) && file == old(file))
              && (scan.Missing? ==> res == Response(404, []) && file == old(file))
              && (scan.At? ==>
                    var updated := MergeWrapped(old(file)[scan.index], "towar", body);
                    file == old(file)[scan.index := updated] && res == Response(200, [updated]))
    {
      var products := file;
      var scan := ScanDocs(products, "towar", GoodsKey, Some(Str(id)));
      if scan.Crashed? {
        return Response(500, []);
      }
      if scan.Missing? {
        return Response(404, []);
      }
      products := products[scan.index := MergeWrapped(products[scan.index], "towar", body)];
      file := products;
      return Response(200, [products[scan.index]]);
    }

    /** DELETE /towary/delete/:id. */
    method DeleteProduct(id: string) returns (res: Response)
      modifies this
      ensures var scan := ScanDocs(old(file), "towar", GoodsKey, Some(Str(id)));
              && (scan.Crashed? ==> res == Response(500, []) && file == old(file))
              && (scan.Missing? ==> res == Response(404, []) && file == old(file))
              && (scan.At? ==> res == Response(200, []) && file == RemoveAt(old(file), scan.index))
    {
      var products := file;
      var scan := ScanDocs(products, "towar", GoodsKey, Some(Str(id)));
      if scan.Crashed? {
        return Response(500, []);
      }
      if scan.Missing? {
        return Response(404, []);
      }
      products := RemoveAt(products, scan.index);
      file := products;
      return Response(200, []);
    }
  }
}
