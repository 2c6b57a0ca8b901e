/**
 * The PHP values a request or a decoded JSON list carries, and the few PHP
 * primitives the two controllers build on: truthiness (`empty`), `isset`,
 * `array_filter` without a callback, and `intval`.
 */
module Php {

  datatype Option<T> = None | Some(value: T)

  datatype Result<T, E> = Success(value: T) | Failure(error: E)

  datatype Outcome<E> = Pass | Fail(error: E)

  /** A request field or a decoded JSON value. Objects appear only as records (`map<string, Value>`). */
  datatype Value = Null | Bool(b: bool) | Int(i: int) | Str(s: string) | List(items: seq<Value>)

  /**
   * Why a request does not complete. Each one is an exception that propagates
   * out of the controller: the framework turns PHP notices and warnings into
   * exceptions, and the controllers' `catch (Exception $e)` clauses name a class
   * of the controllers' own namespace that does not exist, so they never match.
   */
  datatype Error =
    | MissingKey(key: string)       // reading an index a decoded record does not have
    | NoCurrentPeriod               // calling a method on the still undefined period cursor
    | NotIterable(key: string)      // `foreach` over a field that is not a list
    | DuplicateLink                 // the pivot insert of `attach` hits an existing row
    | NotFound                      // `findOrFail` or route binding finds no row
    | IllegalOffset                 // an array used as an array key

  /** PHP's truthiness: `empty($v)` holds exactly when `!Truthy(v)`. */
  predicate Truthy(v: Value) {
    match v
    case Null => false
    case Bool(b) => b
    case Int(i) => i != 0
    case Str(s) => s != "" && s != "0"
    case List(xs) => xs != []
  }

  /** `! empty($m[k])`: the key is present and its value is truthy. */
  predicate Filled(m: map<string, Value>, k: string) {
    k in m && Truthy(m[k])
  }

  /** `isset($m[k])`: the key is present and its value is not null. */
  predicate IsSet(m: map<string, Value>, k: string) {
    k in m && m[k] != Null
  }

  /** `array_filter($m)`: keeps exactly the truthy entries, unchanged. */
  function ArrayFilter(m: map<string, Value>): (r: map<string, Value>)
    ensures forall k :: k in r <==> Filled(m, k)
    ensures forall k :: k in r ==> k in m && r[k] == m[k]
  {
    map k | k in m && Truthy(m[k]) :: m[k]
  }

  /** The characters C's `isspace` accepts: space, tab, newline, vertical tab, form feed, carriage return. */
  predicate IsSpace(c: char) {
    c == ' ' || 9 <= c as int <= 13
  }

  predicate IsDigit(c: char) {
    '0' <= c <= '9'
  }

  predicate AllDigits(s: string) {
    forall k :: 0 <= k < |s| ==> IsDigit(s[k])
  }

  function SkipSpace(s: string): (r: string)
    ensures |r| <= |s| && r == s[|s| - |r|..]
    ensures r != [] ==> !IsSpace(r[0])
  {
    if s != [] && IsSpace(s[0]) then SkipSpace(s[1..]) else s
  }

  /** Length of the run of decimal digits at the head of `s`. */
  function DigitRun(s: string): (n: nat)
    ensures n <= |s| && AllDigits(s[..n])
    ensures n < |s| ==> !IsDigit(s[n])
  {
    if s != [] && IsDigit(s[0]) then 1 + DigitRun(s[1..]) else 0
  }

  /** The number a string of decimal digits denotes, most significant digit first. */
  function DecimalValue(ds: string): nat
    requires AllDigits(ds)
  {
    if ds == [] then 0
    else 10 * DecimalValue(ds[..|ds| - 1]) + (ds[|ds| - 1] as int - '0' as int)
  }

  /** The value of the longest run of digits at the head of `s`. */
  function LeadingNumber(s: string): nat {
    DecimalValue(s[..DigitRun(s)])
  }

  /** `intval` of a string: leading white space, an optional sign, then as many digits as there are. */
  function ParseInt(s: string): int {
    var t := SkipSpace(s);
    if t != [] && t[0] == '-' then 0 - LeadingNumber(t[1..])
    else if t != [] && t[0] == '+' then LeadingNumber(t[1..])
    else LeadingNumber(t)
  }

  /** `intval($v)`. */
  function IntVal(v: Value): int {
    match v
    case Null => 0
    case Bool(b) => if b then 1 else 0
    case Int(i) => i
    case Str(s) => ParseInt(s)
    case List(xs) => if xs == [] then 0 else 1
  }

  function DigitChar(d: nat): (c: char)
    requires d < 10
    ensures IsDigit(c) && c as int - '0' as int == d
  {
    ('0' as int + d) as char
  }

  /** PHP's decimal rendering of a natural number (no leading zeros). */
  function Decimal(n: nat): (s: string)
    ensures s != [] && AllDigits(s)
  {
    if n < 10 then [DigitChar(n)] else Decimal(n / 10) + [DigitChar(n % 10)]
  }

  /** PHP's rendering of an integer, as `(string) $i` gives it and as a form submits it. */
  function Render(i: int): string {
    if i < 0 then "-" + Decimal(-i) else Decimal(i)
  }

  lemma {:induction false} DecimalValueOfDecimal(n: nat)
    ensures DecimalValue(Decimal(n)) == n
  {
    if n >= 10 {
      var s := Decimal(n);
      assert s[..|s| - 1] == Decimal(n / 10);
      DecimalValueOfDecimal(n / 10);
    }
  }

  lemma {:induction false} DigitRunOfDigits(s: string)
    requires AllDigits(s)
    ensures DigitRun(s) == |s|
  {
    if s != [] {
      DigitRunOfDigits(s[1..]);
    }
  }

  lemma LeadingNumberOfDecimal(n: nat)
    ensures LeadingNumber(Decimal(n)) == n
  {
    var s := Decimal(n);
    DigitRunOfDigits(s);
    assert s[..DigitRun(s)] == s;
    DecimalValueOfDecimal(n);
  }

  /** `intval` reads back every integer a form renders: the branch ids a form submits as strings become the ids. */
  lemma IntValOfRendered(i: int)
    ensures IntVal(Str(Render(i))) == i
    ensures IntVal(Int(i)) == i
  {
    var s := Render(i);
    assert SkipSpace(s) == s;
    if i < 0 {
      assert s[1..] == Decimal(-i);
      LeadingNumberOfDecimal(-i);
    } else {
      LeadingNumberOfDecimal(i);
    }
  }

  /** A PHP array key: an integer or a string. */
  datatype Key = IntKey(i: int) | StrKey(s: string)

  /**
   * The key PHP stores `$a[$v]` under: an integer for an integer, a boolean or
   * a string that is the decimal rendering of an integer; the empty string for
   * null; the string itself for any other string. An array is an illegal offset.
   */
  function ArrayKey(v: Value): Result<Key, Error> {
    match v
    case Null => Success(StrKey(""))
    case Bool(b) => Success(IntKey(if b then 1 else 0))
    case Int(i) => Success(IntKey(i))
    case Str(s) => if s == Render(ParseInt(s)) then Success(IntKey(ParseInt(s))) else Success(StrKey(s))
    case List(_) => Failure(IllegalOffset)
  }

  /** An integer and its decimal string are the same array key. */
  lemma NumericKeysCollapse(i: int)
    ensures ArrayKey(Str(Render(i))) == ArrayKey(Int(i)) == Success(IntKey(i))
  {
    IntValOfRendered(i);
  }
}
