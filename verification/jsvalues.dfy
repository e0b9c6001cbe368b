/**
 * The JavaScript values that the preference record can hold, and the three conversions the page
 * applies to them: to a string (attribute values and text), to a boolean (conditions and
 * `classList.toggle`), and to JSON (what `JSON.stringify` writes into storage).
 */
module JsValues {

  datatype Option<T> = None | Some(value: T)

  /** A value held by a field of the preference record. Numbers are modelled as integers;
      `Obj` is a plain object read back from storage (whose contents nothing here looks at);
      `Utterance(id)` is the speech-synthesis utterance object numbered `id`. */
  datatype Value =
    | Num(n: int)
    | NaN
    | Str(s: string)
    | Bool(b: bool)
    | Null
    | Obj
    | Utterance(id: nat)
  {
    /** A value that a parsed JSON document can contain. */
    predicate IsJson() {
      !NaN? && !Utterance?
    }
  }

  type JsonValue = v: Value | v.IsJson() witness Null

  function DigitChar(d: int): char
    requires 0 <= d < 10
  {
    "0123456789"[d]
  }

  predicate IsDigit(c: char) {
    '0' <= c <= '9'
  }

  /** Decimal notation of a natural number, without leading zeros. */
  function NatToString(n: nat): (r: string)
    ensures |r| >= 1
    ensures forall i :: 0 <= i < |r| ==> IsDigit(r[i])
    ensures n >= 10 ==> r[0] != '0'
  {
    if n < 10 then [DigitChar(n)] else NatToString(n / 10) + [DigitChar(n % 10)]
  }

  function DigitValue(c: char): nat {
    if c == '1' then 1 else if c == '2' then 2 else if c == '3' then 3
    else if c == '4' then 4 else if c == '5' then 5 else if c == '6' then 6
    else if c == '7' then 7 else if c == '8' then 8 else if c == '9' then 9 else 0
  }

  /** The value of a string of decimal digits. */
  function DecimalValue(s: string): nat
    requires forall i :: 0 <= i < |s| ==> IsDigit(s[i])
  {
    if s == [] then 0 else 10 * DecimalValue(s[..|s| - 1]) + DigitValue(s[|s| - 1])
  }

  /** Reading the decimal notation back gives the number. */
  lemma {:induction false} DecimalValueOfNatToString(n: nat)
    ensures DecimalValue(NatToString(n)) == n
  {
    var r := NatToString(n);
    assert DigitValue(DigitChar(n % 10)) == n % 10;
    if n >= 10 {
      DecimalValueOfNatToString(n / 10);
      assert r[..|r| - 1] == NatToString(n / 10);
    }
  }

  /** `Number.prototype.toString` for an integer (below 10^21 in magnitude). */
  function IntToString(i: int): string {
    if i < 0 then "-" + NatToString(-i) else NatToString(i)
  }

  /** `String(v)`, as `setAttribute` and template literals apply it. */
  function ToString(v: Value): string {
    match v
    case Num(n) => IntToString(n)
    case NaN => "NaN"
    case Str(s) => s
    case Bool(b) => if b then "true" else "false"
    case Null => "null"
    case Obj => "[object Object]"
    case Utterance(_) => "[object SpeechSynthesisUtterance]"
  }

  /** `Boolean(v)`: JavaScript truthiness. */
  predicate Truthy(v: Value) {
    match v
    case Num(n) => n != 0
    case NaN => false
    case Str(s) => s != ""
    case Bool(b) => b
    case Null => false
    case Obj => true
    case Utterance(_) => true
  }

  /** What `JSON.stringify` writes for a field: NaN becomes `null`, and an utterance, which has no
      own enumerable properties, becomes the empty object. What is written is as truthy as the
      field was. */
  function ToJson(v: Value): (r: JsonValue)
    ensures v.IsJson() ==> r == v
    ensures v.NaN? ==> r == Null
    ensures v.Utterance? ==> r == Obj
    ensures Truthy(r) == Truthy(v)
  {
    match v
    case NaN => Null
    case Utterance(_) => Obj
    case _ => v
  }

  /** Writing what was written again gives the same text: a second save of a reloaded value
      stores what the first save stored. */
  lemma ToJsonIdempotent(v: Value)
    ensures ToJson(ToJson(v)) == ToJson(v)
  {
  }

  /** Only the boolean `true` and the string "true" print as "true": a number prints as digits
      and a sign, every other kind as a fixed word. */
  lemma ToStringIsTrue(v: Value)
    ensures ToString(v) == "true" <==> v == Bool(true) || v == Str("true")
  {
    if v.Num? {
      var r := NatToString(if v.n < 0 then -v.n else v.n);
      if v.n < 0 {
        assert ToString(v)[0] == '-';
      } else {
        assert ToString(v) == r && IsDigit(r[0]);
      }
    }
  }
}
