/** A printer of scalars that keeps what grouping asks of one. */
module PlainPrinter {
  import opened Values
  import opened Where
  import opened GroupKeys

  function Digits(n: nat): (s: string)
    ensures s != [] && forall c | c in s :: '0' <= c <= '9'
  {
    var last := ['0' + (n % 10) as char];
    if n < 10 then last else Digits(n / 10) + last
  }

  function Decimal(n: int): string {
    if n < 0 then "-" + Digits(-n) else Digits(n)
  }

  function Position(x: real, s: seq<real>): (i: nat)
    ensures x in s ==> i < |s| && s[i] == x
  {
    if s == [] || s[0] == x then 0 else 1 + Position(x, s[1..])
  }

  /** Scalars in plain text; a float64 by its place in the list of all float64 values. */
  function PlainText(floats: seq<real>, v: Value): string {
    match v
    case Nil => "<nil>"
    case Bool(b) => if b then "true" else "false"
    case Int(n) => Decimal(n)
    case Int64(n) => Decimal(n)
    case Float(x) => Decimal(Position(x, floats))
    case Str(s) => s
    case Arr(_) => "[]"
    case Obj(_) => "map[]"
  }

  lemma {:induction false} DigitsInjective(m: nat, n: nat)
    requires Digits(m) == Digits(n)
    ensures m == n
  {
    var s, t := Digits(m), Digits(n);
    assert s[|s| - 1] == '0' + (m % 10) as char && t[|t| - 1] == '0' + (n % 10) as char;
    if m >= 10 && n >= 10 {
      assert s[..|s| - 1] == Digits(m / 10) && t[..|t| - 1] == Digits(n / 10);
      DigitsInjective(m / 10, n / 10);
    }
  }

  lemma SignTells(n: int)
    ensures Decimal(n) != [] && (Decimal(n)[0] == '-' <==> n < 0)
  {
    if n >= 0 {
      assert Decimal(n)[0] in Digits(n);
    }
  }

  lemma DecimalInjective(m: int, n: int)
    requires Decimal(m) == Decimal(n)
    ensures m == n
  {
    SignTells(m);
    SignTells(n);
    if m < 0 {
      assert Decimal(m)[1..] == Digits(-m) && Decimal(n)[1..] == Digits(-n);
      DigitsInjective(-m, -n);
    } else {
      DigitsInjective(m, n);
    }
  }

  lemma PlainInjective(floats: seq<real>, v: Value, w: Value)
    requires Scalar(x => x in floats, v) && Scalar(x => x in floats, w)
    requires TypeName(v) == TypeName(w) && PlainText(floats, v) == PlainText(floats, w)
    ensures v == w
  {
    if v.Int? {
      DecimalInjective(v.i, w.i);
    } else if v.Int64? {
      DecimalInjective(v.i64, w.i64);
    } else if v.Float? {
      DecimalInjective(Position(v.x, floats), Position(w.x, floats));
    }
  }

  /** The promise can be kept, whatever finite list the float64 values are. */
  lemma FaithfulPrinterExists(floats: seq<real>)
    ensures Faithful(v => PlainText(floats, v), x => x in floats)
  {
    var fmt, f64 := (v: Value) => PlainText(floats, v), (x: real) => x in floats;
    forall v: Value, w: Value | Scalar(f64, v) && Scalar(f64, w) && TypeName(v) == TypeName(w) && fmt(v) == fmt(w)
      ensures v == w
    {
      PlainInjective(floats, v, w);
    }
  }
}
