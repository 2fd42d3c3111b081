/** Option, the JSON values the stores hold, and the JavaScript object
    semantics the engine relies on: optional-chaining lookup along a dotted
    path, strict member access (which throws on undefined and null),
    `String(v)`, truthiness, strict equality and object spread. */
module Json {

  datatype Option<+T> = None | Some(value: T)

  /** A JSON value as parsed from the data files or a request body.
      Numbers are integers here (see README, "Left out"). */
  datatype Value =
    | Null
    | Bool(b: bool)
    | Num(n: int)
    | Str(s: string)
    | Obj(fields: map<string, Value>)

  /** A JavaScript object with its own enumerable properties. */
  type Record = map<string, Value>

  /** The result of a strict member access chain `a.b.c`: the value read
      (`None` is `undefined`) or the TypeError thrown when a step reads a
      property of `undefined` or `null`. */
  datatype Access = Got(read: Option<Value>) | TypeError

  // ---------------------------------------------------------------------
  // Optional chaining: `current?.[key]`

  /** `current?.[key]`: a property of an object, `undefined` otherwise. */
  function Get(current: Option<Value>, key: string): (r: Option<Value>)
    ensures r.Some? <==> current.Some? && current.value.Obj? && key in current.value.fields
    ensures r.Some? ==> r.value == current.value.fields[key]
  {
    match current
    case Some(Obj(m)) => if key in m then Some(m[key]) else None
    case _ => None
  }

  /** `keys.reduce((current, key) => current?.[key], v)`. */
  function GetPath(v: Option<Value>, keys: seq<string>): Option<Value>
    decreases |keys|
  {
    if keys == [] then v else GetPath(Get(v, keys[0]), keys[1..])
  }

  /** Once an intermediate value is absent the rest of the path yields
      `undefined`. */
  lemma {:induction false} GetPathOfUndefined(keys: seq<string>)
    ensures GetPath(None, keys) == None
    decreases |keys|
  {
    if keys != [] {
      GetPathOfUndefined(keys[1..]);
    }
  }

  /** Resolving a path is resolving its first part, then the rest, left to right. */
  lemma {:induction false} GetPathAppend(v: Option<Value>, a: seq<string>, b: seq<string>)
    ensures GetPath(v, a + b) == GetPath(GetPath(v, a), b)
    decreases |a|
  {
    if a != [] {
      assert a + b != [] && (a + b)[0] == a[0];
      assert (a + b)[1..] == a[1..] + b;
      GetPathAppend(Get(v, a[0]), a[1..], b);
      calc {
        GetPath(v, a + b);
        GetPath(Get(v, a[0]), a[1..] + b);
        GetPath(GetPath(Get(v, a[0]), a[1..]), b);
      }
    } else {
      assert a + b == b;
    }
  }

  /** A path resolves to a value only if every proper prefix resolves to an object. */
  lemma {:induction false} GetPathDefinedPrefix(v: Option<Value>, keys: seq<string>, k: nat)
    requires k < |keys|
    requires GetPath(v, keys).Some?
    ensures GetPath(v, keys[..k]).Some? && GetPath(v, keys[..k]).value.Obj?
    ensures keys[k] in GetPath(v, keys[..k]).value.fields
  {
    assert keys == keys[..k] + keys[k..];
    GetPathAppend(v, keys[..k], keys[k..]);
    var mid := GetPath(v, keys[..k]);
    var after := Get(mid, keys[k]);
    assert keys[k..][1..] == keys[k + 1..];
    if after.None? {
      GetPathOfUndefined(keys[k + 1..]);
      assert false;
    }
  }

  // ---------------------------------------------------------------------
  // Strict member access: `a.b`

  /** `current.key`: a TypeError when `current` is `undefined` or `null`;
      `undefined` for a property missing from an object or read from any
      other primitive. */
  function Member(current: Option<Value>, key: string): (r: Access)
    ensures r.TypeError? <==> current.None? || current == Some(Null)
    ensures r.Got? ==> r.read == Get(current, key)
  {
    match current
    case None => TypeError
    case Some(Null) => TypeError
    case _ => Got(Get(current, key))
  }

  /** `v.k1.k2 ... kn` without optional chaining. */
  function StrictPath(v: Option<Value>, keys: seq<string>): Access
    decreases |keys|
  {
    if keys == [] then Got(v)
    else match Member(v, keys[0])
      case TypeError => TypeError
      case Got(w) => StrictPath(w, keys[1..])
  }

  /** Where strict access does not throw it reads what optional chaining reads. */
  lemma {:induction false} StrictPathAgrees(v: Option<Value>, keys: seq<string>)
    ensures StrictPath(v, keys).Got? ==> StrictPath(v, keys).read == GetPath(v, keys)
    decreases |keys|
  {
    if keys != [] {
      StrictPathAgrees(Get(v, keys[0]), keys[1..]);
    }
  }

  /** Strict access throws exactly when some step before the last meets
      `undefined` or `null`. */
  lemma {:induction false} StrictPathThrows(v: Option<Value>, keys: seq<string>)
    ensures StrictPath(v, keys).TypeError? <==>
            exists k :: 0 <= k < |keys| && (GetPath(v, keys[..k]).None? || GetPath(v, keys[..k]) == Some(Null))
    decreases |keys|
  {
    if keys != [] {
      StrictPathThrows(Get(v, keys[0]), keys[1..]);
      var rest := keys[1..];
      forall k | 1 <= k <= |rest|
        ensures GetPath(v, keys[..k]) == GetPath(Get(v, keys[0]), rest[..k - 1])
      {
        assert keys[..k][0] == keys[0];
        assert keys[..k][1..] == rest[..k - 1];
      }
      assert keys[..0] == [];
      if StrictPath(v, keys).TypeError? && Member(v, keys[0]).Got? {
        var k' :| 0 <= k' < |rest| && (GetPath(Get(v, keys[0]), rest[..k']).None? || GetPath(Get(v, keys[0]), rest[..k']) == Some(Null));
        assert GetPath(v, keys[..k' + 1]) == GetPath(Get(v, keys[0]), rest[..k']);
      }
      if (exists k :: 0 <= k < |keys| && (GetPath(v, keys[..k]).None? || GetPath(v, keys[..k]) == Some(Null))) && Member(v, keys[0]).Got? {
        var k :| 0 <= k < |keys| && (GetPath(v, keys[..k]).None? || GetPath(v, keys[..k]) == Some(Null));
        assert k != 0;
        assert GetPath(v, keys[..k]) == GetPath(Get(v, keys[0]), rest[..k - 1]);
      }
    }
  }

  // ---------------------------------------------------------------------
  // `field.split('.')` and its inverse

  /** `s.split(sep)` for a one-character separator. */
  function Split(s: string, sep: char): (parts: seq<string>)
    ensures |parts| >= 1
    decreases |s|
  {
    if s == [] then [""]
    else
      var rest := Split(s[1..], sep);
      if s[0] == sep then [""] + rest else [[s[0]] + rest[0]] + rest[1..]
  }

  /** `parts.join(sep)`. */
  function Join(parts: seq<string>, sep: char): string
    requires |parts| >= 1
    decreases |parts|
  {
    if |parts| == 1 then parts[0] else parts[0] + [sep] + Join(parts[1..], sep)
  }

  /** Splitting never leaves the separator inside a piece. */
  lemma {:induction false} SplitPiecesFree(s: string, sep: char)
    ensures forall i :: 0 <= i < |Split(s, sep)| ==> sep !in Split(s, sep)[i]
    decreases |s|
  {
    if s != [] {
      SplitPiecesFree(s[1..], sep);
      var rest := Split(s[1..], sep);
      if s[0] != sep {
        assert sep !in rest[0];
        assert forall c :: c in [s[0]] + rest[0] ==> c == s[0] || c in rest[0];
      }
    }
  }

  /** Joining the pieces gives back the field name. */
  lemma {:induction false} JoinSplit(s: string, sep: char)
    ensures Join(Split(s, sep), sep) == s
    decreases |s|
  {
    if s != [] {
      JoinSplit(s[1..], sep);
      var rest := Split(s[1..], sep);
      if s[0] == sep {
        assert Split(s, sep) == [""] + rest;
        assert ([""] + rest)[1..] == rest;
      } else {
        var parts := [[s[0]] + rest[0]] + rest[1..];
        if |rest| == 1 {
          assert Join(parts, sep) == [s[0]] + rest[0];
        } else {
          assert parts[1..] == rest[1..];
          assert Join(parts, sep) == [s[0]] + rest[0] + [sep] + Join(rest[1..], sep);
        }
      }
    }
  }

  /** Splitting a join of separator-free pieces gives back the pieces. */
  lemma {:induction false} SplitJoin(parts: seq<string>, sep: char)
    requires |parts| >= 1
    requires forall i :: 0 <= i < |parts| ==> sep !in parts[i]
    ensures Split(Join(parts, sep), sep) == parts
    decreases |parts|, |parts[0]|
  {
    if parts[0] == [] {
      if |parts| > 1 {
        SplitJoin(parts[1..], sep);
        var s := Join(parts, sep);
        assert s == [sep] + Join(parts[1..], sep);
        assert s[1..] == Join(parts[1..], sep);
        assert [""] + parts[1..] == parts;
      }
    } else {
      var head := parts[0];
      var shorter := [head[1..]] + parts[1..];
      assert shorter[1..] == parts[1..];
      SplitJoin(shorter, sep);
      var s := Join(parts, sep);
      if |parts| == 1 {
        assert s == head;
      } else {
        assert Join(shorter, sep) == head[1..] + [sep] + Join(parts[1..], sep);
      }
      assert s[0] == head[0] && s[1..] == Join(shorter, sep);
      assert head[0] != sep by { assert head[0] in head; }
      assert [head[0]] + head[1..] == head;
      assert [[head[0]] + head[1..]] + parts[1..] == parts;
    }
  }

  // ---------------------------------------------------------------------
  // Conversions and comparisons used by the handlers

  /** Decimal digits of a natural number. */
  function NatToString(n: nat): (s: string)
    ensures |s| >= 1
    ensures forall i :: 0 <= i < |s| ==> '0' <= s[i] <= '9'
    decreases n
  {
    var d := ['0' + (n % 10) as char];
    if n < 10 then d else NatToString(n / 10) + d
  }

  /** `String(v)`; `undefined` renders as "undefined". */
  function ToJsString(v: Option<Value>): string
  {
    match v
    case None => "undefined"
    case Some(Null) => "null"
    case Some(Bool(b)) => if b then "true" else "false"
    case Some(Num(n)) => if n < 0 then "-" + NatToString(-n) else NatToString(n)
    case Some(Str(s)) => s
    case Some(Obj(_)) => "[object Object]"
  }

  /** JavaScript truthiness of a possibly undefined value. */
  predicate Truthy(v: Option<Value>)
  {
    match v
    case None => false
    case Some(Null) => false
    case Some(Bool(b)) => b
    case Some(Num(n)) => n != 0
    case Some(Str(s)) => s != ""
    case Some(Obj(_)) => true
  }

  /** `a === b` where two objects are never the same object (every object
      compared here comes from a separate parse or literal). */
  predicate StrictEquals(a: Option<Value>, b: Option<Value>)
  {
    a == b && !(a.Some? && a.value.Obj?)
  }

  /** The own properties `{...v}` copies: those of an object, none for
      `undefined`, `null` and the other primitives (see README for strings). */
  function Spread(v: Option<Value>): (m: Record)
    ensures v.Some? && v.value.Obj? ==> m == v.value.fields
    ensures !(v.Some? && v.value.Obj?) ==> m == map[]
  {
    match v
    case Some(Obj(fields)) => fields
    case _ => map[]
  }

  /** `{...base, ...patch}`: a right-biased shallow union. */
  function Merge(base: Record, patch: Record): (r: Record)
    ensures r.Keys == base.Keys + patch.Keys
    ensures forall k :: k in patch ==> r[k] == patch[k]
    ensures forall k :: k in base && k !in patch ==> r[k] == base[k]
  {
    base + patch
  }

  /** Merging the same patch twice changes nothing more. */
  lemma MergeIdempotent(base: Record, patch: Record)
    ensures Merge(Merge(base, patch), patch) == Merge(base, patch)
  {
  }
}
