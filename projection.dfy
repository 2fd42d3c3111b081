/** The reply projections of the gRPC handlers, `mapZlecenie`,
    `mapKontener` and `mapTowar`: nested object literals whose leaves read
    the record with strict member access (`zlecenie.klient.adres.ulica`).
    A read of a property of `undefined` or `null` throws; a leaf that reads
    `undefined` leaves its key out of the reply. */
module Projection {
  import opened Json

  /** The nesting of an object literal: a leaf copies the value read, a
      node builds an object from its fields in order. */
  datatype Shape = Leaf | Node(fields: seq<Field>)
  datatype Field = Field(name: string, shape: Shape)

  /** The object a node builds, or the TypeError raised while building it. */
  datatype Built = Built(m: map<string, Value>) | Threw

  function Names(fs: seq<Field>): (names: set<string>)
    ensures forall i :: 0 <= i < |fs| ==> fs[i].name in names
  {
    set i | 0 <= i < |fs| :: fs[i].name
  }

  /** The field names of every node are distinct. */
  ghost predicate WellFormed(s: Shape)
  {
    s.Node? ==>
      && (forall i, j :: 0 <= i < j < |s.fields| ==> s.fields[i].name != s.fields[j].name)
      && (forall i :: 0 <= i < |s.fields| ==> WellFormed(s.fields[i].shape))
  }

  /** The literal of shape `s` filled from `v`. */
  function Project(v: Option<Value>, s: Shape): (r: Access)
    ensures s.Node? && r.Got? ==> r.read.Some? && r.read.value.Obj?
    decreases s
  {
    match s
    case Leaf => Got(v)
    case Node(fs) =>
      match ProjectFields(v, fs)
      case Threw => TypeError
      case Built(m) => Got(Some(Obj(m)))
  }

  /** The fields of one literal, in order, each read from `v` with `v.name`. */
  function ProjectFields(v: Option<Value>, fs: seq<Field>): (r: Built)
    ensures r.Built? ==> r.m.Keys <= Names(fs)
    decreases fs
  {
    if fs == [] then Built(map[])
    else
      match Member(v, fs[0].name)
      case TypeError => Threw
      case Got(w) =>
        match Project(w, fs[0].shape)
        case TypeError => Threw
        case Got(x) =>
          match ProjectFields(v, fs[1..])
          case Threw => Threw
          case Built(m) =>
            assert Names(fs[1..]) <= Names(fs) by {
              forall n | n in Names(fs[1..]) ensures n in Names(fs) {
                var i :| 0 <= i < |fs[1..]| && fs[1..][i].name == n;
                assert fs[i + 1].name == n;
              }
            }
            Built(if x.Some? then m[fs[0].name := x.value] else m)
  }

  /** The record has what the shape reads through: every node with fields
      is applied to a value other than `undefined` and `null`. */
  ghost predicate Fits(v: Option<Value>, s: Shape)
    decreases s
  {
    match s
    case Leaf => true
    case Node(fs) => FieldsFit(v, fs)
  }

  ghost predicate FieldsFit(v: Option<Value>, fs: seq<Field>)
    decreases fs
  {
    fs == [] ||
    (v.Some? && v.value != Null && Fits(Get(v, fs[0].name), fs[0].shape) && FieldsFit(v, fs[1..]))
  }

  /** A projection throws exactly when the record lacks (or has `null` at)
      a value some strict member access reads through. */
  lemma {:induction false} ProjectThrows(v: Option<Value>, s: Shape)
    ensures Project(v, s).TypeError? <==> !Fits(v, s)
    decreases s
  {
    if s.Node? {
      FieldsThrow(v, s.fields);
    }
  }

  lemma {:induction false} FieldsThrow(v: Option<Value>, fs: seq<Field>)
    ensures ProjectFields(v, fs).Threw? <==> !FieldsFit(v, fs)
    decreases fs
  {
    if fs != [] && Member(v, fs[0].name).Got? {
      ProjectThrows(Get(v, fs[0].name), fs[0].shape);
      FieldsThrow(v, fs[1..]);
    }
  }

  /** The reply copies exactly the listed fields: a leaf's key is present
      exactly when the record has that property, with the same value; a
      nested literal is always present and holds the projection of the
      nested value; nothing else is copied. */
  lemma {:induction false} ProjectCopiesListedFields(v: Option<Value>, fs: seq<Field>)
    requires forall i, j :: 0 <= i < j < |fs| ==> fs[i].name != fs[j].name
    requires ProjectFields(v, fs).Built?
    ensures ProjectFields(v, fs).m.Keys <= Names(fs)
    ensures forall i :: 0 <= i < |fs| ==> CopiedAsListed(v, fs[i], ProjectFields(v, fs).m)
    decreases fs
  {
    if fs != [] {
      var rest := fs[1..];
      var m := ProjectFields(v, fs).m;
      var m' := ProjectFields(v, rest).m;
      ProjectCopiesListedFields(v, rest);
      forall i | 0 <= i < |rest|
        ensures rest[i].name != fs[0].name
      {
        assert rest[i] == fs[i + 1];
      }
      assert fs[0].name !in Names(rest);
      forall i | 0 <= i < |fs|
        ensures CopiedAsListed(v, fs[i], m)
      {
        if i > 0 {
          assert fs[i] == rest[i - 1];
          assert CopiedAsListed(v, rest[i - 1], m');
          assert fs[i].name != fs[0].name;
        }
      }
    }
  }

  /** One listed field as the reply holds it: a leaf copied exactly when
      present, a nested literal always, as the projection of the nested
      value on its own literal. */
  ghost predicate CopiedAsListed(v: Option<Value>, f: Field, m: map<string, Value>)
  {
    if f.shape.Leaf? then
      (f.name in m <==> Get(v, f.name).Some?) && (f.name in m ==> m[f.name] == Get(v, f.name).value)
    else
      && Project(Get(v, f.name), f.shape).Got?
      && f.name in m
      && m[f.name] == Project(Get(v, f.name), f.shape).read.value
  }

  /** Objects that agree on the names `fs` lists (present in both with the
      same value, or absent from both). */
  ghost predicate AgreeOn(a: map<string, Value>, b: map<string, Value>, fs: seq<Field>)
  {
    forall i :: 0 <= i < |fs| ==>
      (fs[i].name in a <==> fs[i].name in b) && (fs[i].name in a ==> a[fs[i].name] == b[fs[i].name])
  }

  /** Projecting a projection changes nothing. */
  lemma {:induction false} ProjectIdempotent(v: Option<Value>, s: Shape)
    requires WellFormed(s)
    requires Project(v, s).Got?
    ensures Project(Project(v, s).read, s) == Project(v, s)
    decreases s
  {
    if s.Node? {
      var m := ProjectFields(v, s.fields).m;
      FieldsIdempotent(v, s.fields, m);
    }
  }

  /** Reading the listed fields back out of any object that agrees with a
      projection on those names rebuilds the projection. */
  lemma {:induction false} FieldsIdempotent(v: Option<Value>, fs: seq<Field>, big: map<string, Value>)
    requires forall i, j :: 0 <= i < j < |fs| ==> fs[i].name != fs[j].name
    requires forall i :: 0 <= i < |fs| ==> WellFormed(fs[i].shape)
    requires ProjectFields(v, fs).Built?
    requires AgreeOn(big, ProjectFields(v, fs).m, fs)
    ensures ProjectFields(Some(Obj(big)), fs) == ProjectFields(v, fs)
    decreases fs
  {
    if fs != [] {
      var m := ProjectFields(v, fs).m;
      var f := fs[0];
      var rest := fs[1..];
      var w := Get(v, f.name);
      var x := Project(w, f.shape).read;
      var m' := ProjectFields(v, rest).m;
      assert forall i :: 1 <= i < |fs| ==> fs[i] == rest[i - 1];
      assert f.name !in Names(rest);
      assert AgreeOn(big, m', rest) by {
        forall i | 0 <= i < |rest|
          ensures (rest[i].name in big <==> rest[i].name in m')
                  && (rest[i].name in big ==> big[rest[i].name] == m'[rest[i].name])
        {
          assert rest[i] == fs[i + 1];
        }
      }
      FieldsIdempotent(v, rest, big);
      assert AgreeOn(big, m, fs) ==> (f.name in big <==> f.name in m);
      if x.Some? {
        assert big[f.name] == x.value;
        ProjectIdempotent(w, f.shape);
      } else {
        assert f.shape.Leaf?;
      }
    }
  }

  // ---------------------------------------------------------------------
  // The three reply shapes

  function Leaves(names: seq<string>): (fs: seq<Field>)
    ensures |fs| == |names|
    ensures forall i :: 0 <= i < |fs| ==> fs[i] == Field(names[i], Leaf)
  {
    seq(|names|, i requires 0 <= i < |names| => Field(names[i], Leaf))
  }

  /** The port literal `{ nazwa, kod_UNLOCODE }`. */
  function PortShape(): Shape
  {
    Node(Leaves(["nazwa", "kod_UNLOCODE"]))
  }

  /** `mapZlecenie`'s literal. */
  function OrderShape(): Shape
  {
    Node(Leaves(["numer_zlecenia", "data_utworzenia", "status"]) + [
      Field("klient", Node(Leaves(["nazwa", "nip"]) + [
        Field("adres", Node(Leaves(["ulica", "miasto", "kod_pocztowy", "kraj"])))])),
      Field("trasa", Node([
        Field("port_zaladunku", PortShape()),
        Field("port_docelowy", PortShape()),
        Field("terminy", Node(Leaves(["zaladunek", "wyjscie_statku", "przewidywane_dostarczenie"])))]))])
  }

  /** `mapKontener`'s literal. */
  function ContainerShape(): Shape
  {
    Node(Leaves(["numer_zlecenia", "numer_kontenera", "typ"]) + [
      Field("waga", Node(Leaves(["brutto", "netto", "jednostka"]))),
      Field("numer_towaru", Leaf),
      Field("ladunek", Node(Leaves(["opis", "ilosc_palet"]) + [
        Field("opakowanie", Node([
          Field("rodzaj", Leaf),
          Field("wymiary", Node(Leaves(["dlugosc", "szerokosc", "wysokosc", "jednostka"])))]))]))])
  }

  /** `mapTowar`'s literal. */
  function GoodsShape(): Shape
  {
    Node(Leaves(["numer_towaru", "nazwa", "ilosc", "jednostka", "wartosc"]))
  }

  /** `mapZlecenie(zlecenie)`. */
  function MapZlecenie(zlecenie: Option<Value>): (r: Access)
    ensures r.Got? ==> r.read.Some? && r.read.value.Obj?
  {
    Project(zlecenie, OrderShape())
  }

  /** `mapKontener(kontener)`. */
  function MapKontener(kontener: Option<Value>): (r: Access)
    ensures r.Got? ==> r.read.Some? && r.read.value.Obj?
  {
    Project(kontener, ContainerShape())
  }

  /** `mapTowar(towar)`. */
  function MapTowar(towar: Option<Value>): (r: Access)
    ensures r.Got? ==> r.read.Some? && r.read.value.Obj?
  {
    Project(towar, GoodsShape())
  }

  /** A node is well formed when its names are distinct and its fields are. */
  lemma NodeWellFormed(fs: seq<Field>)
    requires forall i, j :: 0 <= i < j < |fs| ==> fs[i].name != fs[j].name
    requires forall i :: 0 <= i < |fs| ==> WellFormed(fs[i].shape)
    ensures WellFormed(Node(fs))
  {
  }

  lemma LeavesWellFormed(names: seq<string>)
    requires forall i, j :: 0 <= i < j < |names| ==> names[i] != names[j]
    ensures WellFormed(Node(Leaves(names)))
  {
  }

  lemma OrderShapeWellFormed()
    ensures WellFormed(OrderShape())
  {
    LeavesWellFormed(["nazwa", "kod_UNLOCODE"]);
    LeavesWellFormed(["ulica", "miasto", "kod_pocztowy", "kraj"]);
    LeavesWellFormed(["zaladunek", "wyjscie_statku", "przewidywane_dostarczenie"]);
    var klient := Leaves(["nazwa", "nip"]) + [Field("adres", Node(Leaves(["ulica", "miasto", "kod_pocztowy", "kraj"])))];
    NodeWellFormed(klient);
    var trasa := [
      Field("port_zaladunku", PortShape()),
      Field("port_docelowy", PortShape()),
      Field("terminy", Node(Leaves(["zaladunek", "wyjscie_statku", "przewidywane_dostarczenie"])))];
    NodeWellFormed(trasa);
    var top := Leaves(["numer_zlecenia", "data_utworzenia", "status"]) + [Field("klient", Node(klient)), Field("trasa", Node(trasa))];
    assert OrderShape() == Node(top);
    NodeWellFormed(top);
  }

  lemma ContainerShapeWellFormed()
    ensures WellFormed(ContainerShape())
  {
    LeavesWellFormed(["brutto", "netto", "jednostka"]);
    LeavesWellFormed(["dlugosc", "szerokosc", "wysokosc", "jednostka"]);
    var opakowanie := [
      Field("rodzaj", Leaf),
      Field("wymiary", Node(Leaves(["dlugosc", "szerokosc", "wysokosc", "jednostka"])))];
    NodeWellFormed(opakowanie);
    var ladunek := Leaves(["opis", "ilosc_palet"]) + [Field("opakowanie", Node(opakowanie))];
    NodeWellFormed(ladunek);
    var top := Leaves(["numer_zlecenia", "numer_kontenera", "typ"]) + [
      Field("waga", Node(Leaves(["brutto", "netto", "jednostka"]))),
      Field("numer_towaru", Leaf),
      Field("ladunek", Node(ladunek))];
    assert ContainerShape() == Node(top);
    NodeWellFormed(top);
  }

  /** The three literals list each name once per level. */
  lemma ShapesWellFormed()
    ensures WellFormed(OrderShape()) && WellFormed(ContainerShape()) && WellFormed(GoodsShape())
  {
    OrderShapeWellFormed();
    ContainerShapeWellFormed();
    LeavesWellFormed(["numer_towaru", "nazwa", "ilosc", "jednostka", "wartosc"]);
  }

  /** Mapping a mapped record again gives the same reply. */
  lemma MapIdempotent(v: Option<Value>)
    ensures MapZlecenie(v).Got? ==> MapZlecenie(MapZlecenie(v).read) == MapZlecenie(v)
    ensures MapKontener(v).Got? ==> MapKontener(MapKontener(v).read) == MapKontener(v)
    ensures MapTowar(v).Got? ==> MapTowar(MapTowar(v).read) == MapTowar(v)
  {
    ShapesWellFormed();
    if MapZlecenie(v).Got? { ProjectIdempotent(v, OrderShape()); }
    if MapKontener(v).Got? { ProjectIdempotent(v, ContainerShape()); }
    if MapTowar(v).Got? { ProjectIdempotent(v, GoodsShape()); }
  }

  /** A list of leaf fields fits exactly the values strict access can read
      properties of. */
  lemma {:induction false} LeavesFit(v: Option<Value>, fs: seq<Field>)
    requires fs != []
    requires forall i :: 0 <= i < |fs| ==> fs[i].shape == Leaf
    ensures FieldsFit(v, fs) <==> v.Some? && v.value != Null
    decreases |fs|
  {
    if |fs| > 1 {
      LeavesFit(v, fs[1..]);
    }
  }

  /** Leaf fields are copied exactly when present. */
  lemma LeavesCopied(v: Option<Value>, fs: seq<Field>, m: map<string, Value>)
    requires forall i :: 0 <= i < |fs| ==> fs[i].shape == Leaf
    requires forall i :: 0 <= i < |fs| ==> CopiedAsListed(v, fs[i], m)
    ensures forall i :: 0 <= i < |fs| ==>
              (fs[i].name in m <==> Get(v, fs[i].name).Some?) && (fs[i].name in m ==> m[fs[i].name] == Get(v, fs[i].name).value)
  {
  }

  /** `mapTowar` reads only top-level properties, so it throws only on
      `undefined` and `null`, and copies the five listed properties the
      record has. */
  lemma MapTowarCopies(v: Option<Value>)
    ensures MapTowar(v).TypeError? <==> v.None? || v == Some(Null)
    ensures MapTowar(v).Got? ==>
              forall k :: k in MapTowar(v).read.value.fields <==>
                k in ["numer_towaru", "nazwa", "ilosc", "jednostka", "wartosc"] && Get(v, k).Some?
    ensures MapTowar(v).Got? ==>
              forall k :: k in MapTowar(v).read.value.fields ==> MapTowar(v).read.value.fields[k] == Get(v, k).value
  {
    ProjectThrows(v, GoodsShape());
    LeavesFit(v, GoodsShape().fields);
    if MapTowar(v).Got? {
      MapTowarFields(v);
    }
  }

  lemma MapTowarFields(v: Option<Value>)
    requires MapTowar(v).Got?
    ensures forall k :: k in MapTowar(v).read.value.fields <==>
              k in ["numer_towaru", "nazwa", "ilosc", "jednostka", "wartosc"] && Get(v, k).Some?
    ensures forall k :: k in MapTowar(v).read.value.fields ==> MapTowar(v).read.value.fields[k] == Get(v, k).value
  {
    var fs := GoodsShape().fields;
    ProjectCopiesListedFields(v, fs);
    var m := MapTowar(v).read.value.fields;
    LeavesCopied(v, fs, m);
    forall k | k in m
      ensures k in ["numer_towaru", "nazwa", "ilosc", "jednostka", "wartosc"] && m[k] == Get(v, k).value
    {
      assert k in Names(fs);
      var i :| 0 <= i < |fs| && fs[i].name == k;
    }
    forall k | k in ["numer_towaru", "nazwa", "ilosc", "jednostka", "wartosc"] && Get(v, k).Some?
      ensures k in m
    {
      var i :| 0 <= i < 5 && ["numer_towaru", "nazwa", "ilosc", "jednostka", "wartosc"][i] == k;
      assert fs[i].name == k;
    }
  }

  /** An order without a route (`trasa`) cannot be mapped. */
  lemma MapZlecenieNeedsRoute(fields: map<string, Value>)
    requires "trasa" !in fields
    ensures MapZlecenie(Some(Obj(fields))).TypeError?
  {
    var fs := OrderShape().fields;
    ProjectThrows(Some(Obj(fields)), OrderShape());
    var trasa := fs[4];
    assert trasa.name == "trasa" && trasa.shape.fields != [];
    assert !Fits(None, trasa.shape);
    assert fs[4..][0] == trasa;
    assert !FieldsFit(Some(Obj(fields)), fs[4..]);
    assert fs[3..][1..] == fs[4..];
    assert fs[2..][1..] == fs[3..];
    assert fs[1..][1..] == fs[2..];
    assert fs[1..] == fs[1..];
    assert !FieldsFit(Some(Obj(fields)), fs[1..]);
  }
}
