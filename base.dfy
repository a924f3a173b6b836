/** Values, failures and decimal text shared by the modelled Python code. */
module Base {

  datatype Option<+T> = None | Some(value: T)

  /** A Python exception that the modelled code raises or lets through. */
  datatype PyError =
    | ZeroDivisionError
    | IndexError
    | TypeError
    | ValueError
    | AttributeError
    | Raised(message: string)  // raised inside a collaborator whose code is not modelled

  /** A value, or the exception that escaped instead of it. */
  datatype Result<+T> = Ok(value: T) | Err(error: PyError)

  /** The end of a call that returns nothing: it finished, or it raised. */
  datatype Outcome = Pass | Fail(error: PyError)

  /** The scalars the model lets a CSV cell, a dictionary entry or a table
      property hold: text, integers, booleans and None. Floats and
      datetimes are not among them. */
  datatype Value = Text(s: string) | Int(i: int) | Bool(b: bool) | Null

  /** `m.get(k)` */
  function Get<K, V>(m: map<K, V>, k: K): Option<V>
  {
    if k in m then Some(m[k]) else None
  }

  // ----- decimal text -----

  function DigitChar(d: nat): (c: char)
    requires d < 10
    ensures '0' <= c <= '9'
  {
    "0123456789"[d]
  }

  function DigitValue(c: char): nat
  {
    if '0' <= c <= '9' then c as int - '0' as int else 0
  }

  /** The shortest decimal spelling of `n`, as Python's `str` writes it. */
  function NatDigits(n: nat): (s: string)
    ensures |s| >= 1
    ensures forall k :: 0 <= k < |s| ==> '0' <= s[k] <= '9'
    ensures s[0] == '0' ==> n == 0
    decreases n
  {
    if n < 10 then [DigitChar(n)] else NatDigits(n / 10) + [DigitChar(n % 10)]
  }

  /** The number a string of decimal digits denotes (most significant first). */
  function DigitsValue(s: string): nat
  {
    if s == [] then 0 else DigitsValue(s[..|s| - 1]) * 10 + DigitValue(s[|s| - 1])
  }

  lemma {:induction false} DigitsValueOfNatDigits(n: nat)
    ensures DigitsValue(NatDigits(n)) == n
    decreases n
  {
    var s := NatDigits(n);
    DigitValueOfDigitChar(n % 10);
    if n < 10 {
      assert s == [DigitChar(n)] && s[..0] == [];
    } else {
      assert s == NatDigits(n / 10) + [DigitChar(n % 10)];
      assert s[..|s| - 1] == NatDigits(n / 10) && s[|s| - 1] == DigitChar(n % 10);
      DigitsValueOfNatDigits(n / 10);
    }
  }

  lemma DigitValueOfDigitChar(d: nat)
    requires d < 10
    ensures DigitValue(DigitChar(d)) == d
  {
  }

  /** Python's `str(i)` for an integer. */
  function DecimalString(i: int): string
  {
    if i < 0 then "-" + NatDigits(-i) else NatDigits(i)
  }

  /** Python's `int(s)` on what `DecimalString` writes. */
  function ParseDecimal(s: string): int
  {
    if |s| > 0 && s[0] == '-' then -(DigitsValue(s[1..]) as int) else DigitsValue(s)
  }

  /** `str` on an integer loses nothing: `int(str(i)) == i`. */
  lemma DecimalRoundTrip(i: int)
    ensures ParseDecimal(DecimalString(i)) == i
  {
    var s := DecimalString(i);
    if i < 0 {
      assert s[0] == '-' && s[1..] == NatDigits(-i);
      DigitsValueOfNatDigits(-i);
      assert ParseDecimal(s) == -(DigitsValue(NatDigits(-i)) as int);
    } else {
      assert s == NatDigits(i) && '0' <= s[0] <= '9';
      DigitsValueOfNatDigits(i);
      assert ParseDecimal(s) == DigitsValue(NatDigits(i));
    }
  }

  /** Python's `str(value)`. */
  function ToStr(v: Value): (s: string)
    ensures v.Text? ==> s == v.s
    ensures v.Int? ==> ParseDecimal(s) == v.i
    ensures v.Bool? ==> s == (if v.b then "True" else "False")
    ensures v.Null? ==> s == "None"
  {
    match v
    case Text(t) => t
    case Int(i) => DecimalRoundTrip(i); DecimalString(i)
    case Bool(b) => if b then "True" else "False"
    case Null => "None"
  }
}
