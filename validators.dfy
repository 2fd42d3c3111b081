/** The identifier checks. The gRPC handlers use the permissive ones of
    `src/helper.js` (a non-empty string); the GraphQL resolvers use the
    strict regular expressions of `src/graphql/helpers.js`, written here as
    a sequence of character classes, one per character of the input. */
module Validators {
  import opened Json

  // ---------------------------------------------------------------------
  // Permissive checks: `x && x.length > 0`

  /** `x && x.length > 0` of `src/helper.js`: a non-empty string, or an
      object whose own `length` property is a positive number. */
  predicate Permissive(x: Option<Value>)
  {
    match x
    case Some(Str(s)) => s != ""
    case Some(Obj(m)) => "length" in m && m["length"].Num? && m["length"].n > 0
    case _ => false
  }

  /** The four permissive validators are the same check. */
  predicate PermissiveOrderNumber(x: Option<Value>) { Permissive(x) }
  predicate PermissiveContainerNumber(x: Option<Value>) { Permissive(x) }
  predicate PermissiveNip(x: Option<Value>) { Permissive(x) }
  predicate PermissiveUnlocode(x: Option<Value>) { Permissive(x) }

  /** On strings the permissive check accepts exactly the non-empty ones. */
  lemma PermissiveOnStrings(s: string)
    ensures Permissive(Some(Str(s))) <==> |s| > 0
  {
  }

  // ---------------------------------------------------------------------
  // Strict checks: anchored regular expressions

  /** One position of an anchored pattern such as `^\d{6}-\d{4}$`. */
  datatype CharClass = Digit | Letter | Upper | UpperOrDigit | Exactly(c: char)

  predicate IsDigit(c: char) { '0' <= c <= '9' }
  predicate IsUpper(c: char) { 'A' <= c <= 'Z' }
  predicate IsLetter(c: char) { IsUpper(c) || 'a' <= c <= 'z' }

  predicate InClass(k: CharClass, c: char)
  {
    match k
    case Digit => IsDigit(c)
    case Letter => IsLetter(c)
    case Upper => IsUpper(c)
    case UpperOrDigit => IsUpper(c) || IsDigit(c)
    case Exactly(d) => c == d
  }

  /** `k{n}`. */
  function Repeat(k: CharClass, n: nat): (p: seq<CharClass>)
    ensures |p| == n && forall i :: 0 <= i < n ==> p[i] == k
  {
    seq(n, _ => k)
  }

  /** `^pattern$` tested against `s`: one character per class, nothing more. */
  predicate FullMatch(pattern: seq<CharClass>, s: string)
  {
    |s| == |pattern| && forall i :: 0 <= i < |s| ==> InClass(pattern[i], s[i])
  }

  /** `/^\d{6}-\d{4}$/` */
  function OrderNumberPattern(): seq<CharClass>
  {
    Repeat(Digit, 6) + [Exactly('-')] + Repeat(Digit, 4)
  }

  /** `/^[A-Za-z]{4}\d{7}$/` */
  function ContainerNumberPattern(): seq<CharClass>
  {
    Repeat(Letter, 4) + Repeat(Digit, 7)
  }

  /** `/^\d{3}-\d{3}-\d{2}-\d{2}$/` */
  function NipPattern(): seq<CharClass>
  {
    Repeat(Digit, 3) + [Exactly('-')] + Repeat(Digit, 3) + [Exactly('-')]
      + Repeat(Digit, 2) + [Exactly('-')] + Repeat(Digit, 2)
  }

  /** `/^[A-Z]{2}[A-Z0-9]{3}$/` */
  function UnlocodePattern(): seq<CharClass>
  {
    Repeat(Upper, 2) + Repeat(UpperOrDigit, 3)
  }

  /** `validateOrderNumber`: eleven characters, six ASCII digits, a hyphen,
      four ASCII digits. */
  function ValidOrderNumber(s: string): (ok: bool)
    ensures ok <==> |s| == 11 && s[6] == '-'
                    && (forall i :: 0 <= i < 6 ==> IsDigit(s[i]))
                    && (forall i :: 7 <= i < 11 ==> IsDigit(s[i]))
  {
    var p := OrderNumberPattern();
    assert forall i :: 0 <= i < 6 ==> p[i] == Digit;
    assert p[6] == Exactly('-');
    assert forall i :: 7 <= i < 11 ==> p[i] == Digit;
    FullMatch(p, s)
  }

  /** `validateContainerNumber`: four ASCII letters of either case, then
      seven ASCII digits. */
  function ValidContainerNumber(s: string): (ok: bool)
    ensures ok <==> |s| == 11
                    && (forall i :: 0 <= i < 4 ==> IsLetter(s[i]))
                    && (forall i :: 4 <= i < 11 ==> IsDigit(s[i]))
  {
    var p := ContainerNumberPattern();
    assert forall i :: 0 <= i < 4 ==> p[i] == Letter;
    assert forall i :: 4 <= i < 11 ==> p[i] == Digit;
    FullMatch(p, s)
  }

  /** `validateNIP`: digit groups of three, three, two and two joined by
      hyphens, thirteen characters in all. */
  function ValidNip(s: string): (ok: bool)
    ensures ok <==> |s| == 13 && s[3] == '-' && s[7] == '-' && s[10] == '-'
                    && (forall i :: 0 <= i < 13 && i != 3 && i != 7 && i != 10 ==> IsDigit(s[i]))
  {
    var p := NipPattern();
    assert forall i :: 0 <= i < 13 && i != 3 && i != 7 && i != 10 ==> p[i] == Digit;
    assert p[3] == Exactly('-') && p[7] == Exactly('-') && p[10] == Exactly('-');
    FullMatch(p, s)
  }

  /** `validateUNLOCODE`: two ASCII capitals, then three ASCII capitals or
      digits. */
  function ValidUnlocode(s: string): (ok: bool)
    ensures ok <==> |s| == 5
                    && (forall i :: 0 <= i < 2 ==> IsUpper(s[i]))
                    && (forall i :: 2 <= i < 5 ==> IsUpper(s[i]) || IsDigit(s[i]))
  {
    var p := UnlocodePattern();
    assert forall i :: 0 <= i < 2 ==> p[i] == Upper;
    assert forall i :: 2 <= i < 5 ==> p[i] == UpperOrDigit;
    FullMatch(p, s)
  }

  /** A location code holding any lower-case ASCII letter is rejected. */
  lemma UnlocodeRejectsLowerCase(s: string, k: nat)
    requires k < |s| && 'a' <= s[k] <= 'z'
    ensures !ValidUnlocode(s)
  {
  }

  /** `.test(x)` converts its argument with `String(x)`, so an absent
      identifier is checked as the text "undefined" and always fails. */
  lemma StrictRejectsUndefined()
    ensures !ValidOrderNumber(ToJsString(None))
    ensures !ValidContainerNumber(ToJsString(None))
    ensures !ValidNip(ToJsString(None))
    ensures !ValidUnlocode(ToJsString(None))
  {
  }

  /** Every strictly valid identifier passes the permissive check too. */
  lemma StrictImpliesPermissive(s: string)
    ensures ValidOrderNumber(s) || ValidContainerNumber(s) || ValidNip(s) || ValidUnlocode(s)
            ==> Permissive(Some(Str(s)))
  {
  }

  /** The converse fails: "abc-123" passes the permissive order-number check
      of the gRPC handlers and fails the strict one of the GraphQL resolvers. */
  lemma PermissiveIsWeaker()
    ensures PermissiveOrderNumber(Some(Str("abc-123"))) && !ValidOrderNumber("abc-123")
  {
  }
}
