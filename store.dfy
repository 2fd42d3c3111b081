/** The keyed-array primitives every handler is built from: `findIndex` /
    `find` / `some` on one key property compared with `===`, `push`,
    index assignment and `splice(index, 1)`. */
module Store {
  import opened Json

  /** What a handler answers: a record, an error code ("400", "404",
      "409"), or an exception thrown out of the handler. */
  datatype Reply = Item(record: Record) | Error(code: string) | Threw

  /** What a delete answers: `{ success, code }`. */
  datatype Deletion = Deletion(success: bool, code: string)

  /** The key properties of orders, containers and goods. */
  const OrderKey := "numer_zlecenia"
  const ContainerKey := "numer_kontenera"
  const GoodsKey := "numer_towaru"

  /** The key property of a record. */
  function KeyOf(r: Record, field: string): (k: Option<Value>)
    ensures k.Some? <==> field in r
    ensures k.Some? ==> k.value == r[field]
  {
    Get(Some(Obj(r)), field)
  }

  /** `r.field === key`. */
  predicate KeyIs(r: Record, field: string, key: Option<Value>)
  {
    StrictEquals(KeyOf(r, field), key)
  }

  /** `s.findIndex(r => r.field === key)`: the first position holding the
      key, or -1 when none does. */
  function FindIndex(s: seq<Record>, field: string, key: Option<Value>): (i: int)
    ensures -1 <= i < |s|
    ensures i >= 0 ==> KeyIs(s[i], field, key) && forall j :: 0 <= j < i ==> !KeyIs(s[j], field, key)
    ensures i == -1 <==> forall j :: 0 <= j < |s| ==> !KeyIs(s[j], field, key)
    decreases |s|
  {
    if s == [] then -1
    else if KeyIs(s[0], field, key) then 0
    else
      var i := FindIndex(s[1..], field, key);
      assert forall j :: 1 <= j < |s| ==> s[j] == s[1..][j - 1];
      if i == -1 then -1 else i + 1
  }

  /** `s.some(r => r.field === key)`. */
  predicate Exists(s: seq<Record>, field: string, key: Option<Value>)
  {
    FindIndex(s, field, key) >= 0
  }

  /** `s.find(r => r.field === key)`. */
  function Find(s: seq<Record>, field: string, key: Option<Value>): (r: Option<Record>)
    ensures r.Some? <==> Exists(s, field, key)
    ensures r.Some? ==> r.value in s && KeyIs(r.value, field, key)
    ensures r.Some? ==> exists i :: 0 <= i < |s| && s[i] == r.value && forall j :: 0 <= j < i ==> !KeyIs(s[j], field, key)
  {
    var i := FindIndex(s, field, key);
    if i >= 0 then Some(s[i]) else None
  }

  /** `s.splice(i, 1)`: the record at `i` removed, the others kept in order. */
  function RemoveAt<T>(s: seq<T>, i: nat): (r: seq<T>)
    requires i < |s|
    ensures |r| == |s| - 1
    ensures multiset(r) + multiset{s[i]} == multiset(s)
    ensures forall j :: 0 <= j < |r| ==> r[j] == (if j < i then s[j] else s[j + 1])
  {
    assert s == s[..i] + [s[i]] + s[i + 1..];
    s[..i] + s[i + 1..]
  }

  /** No record carries the key of an earlier one (as `===` sees it). */
  ghost predicate UniqueKeys(s: seq<Record>, field: string)
  {
    forall i, j :: 0 <= i < j < |s| ==> !KeyIs(s[j], field, KeyOf(s[i], field))
  }

  /** Appending a record whose key is not yet present keeps keys unique. */
  lemma AppendUnique(s: seq<Record>, field: string, x: Record)
    requires UniqueKeys(s, field)
    requires !Exists(s, field, KeyOf(x, field))
    ensures UniqueKeys(s + [x], field)
  {
    var t := s + [x];
    forall i, j | 0 <= i < j < |t|
      ensures !KeyIs(t[j], field, KeyOf(t[i], field))
    {
      assert t[i] == s[i];
      if j == |s| {
        assert !KeyIs(s[i], field, KeyOf(x, field));
        assert t[j] == x;
      } else {
        assert t[j] == s[j];
      }
    }
  }

  /** A record appended under a key no record holds is the one found
      under that key afterwards (an object key is never `===` anything). */
  lemma AppendThenFind(s: seq<Record>, field: string, x: Record)
    requires !Exists(s, field, KeyOf(x, field))
    requires !(KeyOf(x, field).Some? && KeyOf(x, field).value.Obj?)
    ensures FindIndex(s + [x], field, KeyOf(x, field)) == |s|
  {
    var t := s + [x];
    var k := KeyOf(x, field);
    assert KeyIs(t[|s|], field, k);
    forall j | 0 <= j < |s|
      ensures !KeyIs(t[j], field, k)
    {
      assert t[j] == s[j];
    }
  }

  /** After deleting the first record holding a key, no record holds it
      any more, provided keys were unique: a second delete finds nothing. */
  lemma RemoveFound(s: seq<Record>, field: string, key: Option<Value>)
    requires UniqueKeys(s, field)
    requires Exists(s, field, key)
    ensures !Exists(RemoveAt(s, FindIndex(s, field, key)), field, key)
    ensures UniqueKeys(RemoveAt(s, FindIndex(s, field, key)), field)
  {
    var i := FindIndex(s, field, key);
    var r := RemoveAt(s, i);
    forall j | 0 <= j < |r|
      ensures !KeyIs(r[j], field, key)
    {
      if j >= i {
        assert r[j] == s[j + 1];
        assert !KeyIs(s[j + 1], field, KeyOf(s[i], field));
      }
    }
    forall a, b | 0 <= a < b < |r|
      ensures !KeyIs(r[b], field, KeyOf(r[a], field))
    {
      var a', b' := if a < i then a else a + 1, if b < i then b else b + 1;
      assert r[a] == s[a'] && r[b] == s[b'];
    }
  }

  /** Index assignment changes that one position and nothing else. */
  lemma ReplaceOnlyThere(s: seq<Record>, i: nat, x: Record)
    requires i < |s|
    ensures |s[i := x]| == |s|
    ensures s[i := x][i] == x
    ensures forall j :: 0 <= j < |s| && j != i ==> s[i := x][j] == s[j]
    ensures multiset(s[i := x]) + multiset{s[i]} == multiset(s) + multiset{x}
  {
  }
}
