/** JSON-like values exchanged between the browser forms and the server,
    and the decimal rendering of record ids that both sides rely on. */
module Values {

  /** A value as it arrives in a request payload or sits in a form object. */
  datatype Value =
    | Null
    | Str(s: string)
    | Num(n: real)
    | List(elems: seq<Value>)
    | Obj(fields: map<string, Value>)

  datatype Option<T> = None | Some(value: T)

  /** Looking up a missing key yields null, as PHP array access and JS property access do. */
  function Field(fields: map<string, Value>, key: string): (v: Value)
    ensures key !in fields ==> v == Null
    ensures key in fields ==> v == fields[key]
  {
    if key in fields then fields[key] else Null
  }

  predicate IsDigit(c: char) { '0' <= c <= '9' }

  predicate AllDigits(s: string) { forall i :: 0 <= i < |s| ==> IsDigit(s[i]) }

  function DigitChar(d: nat): (c: char)
    requires d < 10
    ensures IsDigit(c) && (c as int) - ('0' as int) == d
  {
    ('0' as int + d) as char
  }

  function DigitValue(c: char): (d: nat)
    requires IsDigit(c)
    ensures d < 10 && DigitChar(d) == c
  {
    (c as int) - ('0' as int)
  }

  /** `n.toString()` in JavaScript (and PHP's string conversion) for a non-negative integer id. */
  function NatToString(n: nat): (s: string)
    ensures |s| >= 1 && AllDigits(s)
    ensures s[0] == '0' ==> n == 0
  {
    if n < 10 then [DigitChar(n)] else NatToString(n / 10) + [DigitChar(n % 10)]
  }

  /** The integer a string of decimal digits denotes, as the database compares it with an id column. */
  function ParseNat(s: string): (n: nat)
    requires AllDigits(s)
  {
    if |s| == 0 then 0 else 10 * ParseNat(s[..|s| - 1]) + DigitValue(s[|s| - 1])
  }

  /** Parsing undoes rendering: the id string a form posts denotes the id it was rendered from. */
  lemma {:induction false} ParseNatToString(n: nat)
    ensures ParseNat(NatToString(n)) == n
  {
    var s := NatToString(n);
    if n < 10 {
      assert s[..|s| - 1] == [];
    } else {
      assert s[..|s| - 1] == NatToString(n / 10);
      ParseNatToString(n / 10);
    }
  }

  /** Distinct ids render to distinct strings, so matching on the rendered string matches on the id. */
  lemma NatToStringInjective(m: nat, n: nat)
    ensures NatToString(m) == NatToString(n) <==> m == n
  {
    if NatToString(m) == NatToString(n) {
      ParseNatToString(m);
      ParseNatToString(n);
    }
  }
}
