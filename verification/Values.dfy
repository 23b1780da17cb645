/** JSON values as the backend sees them, exact numbers, and decimal integers. */
module Values {

  datatype Option<+T> = None | Some(value: T)

  /** Numbers are exact; a float that is not finite is kept apart.  `Encoded` is
      the text that a value is printed to, which reads back as that value. */
  datatype Value =
    | Null
    | Bool(flag: bool)
    | Int(whole: int)
    | Float(number: real)
    | NonFinite
    | Str(text: string)
    | List(items: seq<Value>)
    | Obj(fields: map<string, Value>)
    | Encoded(content: Value)

  type Mapping = map<string, Value>

  /** `mapping.get(key)`: a missing key and a null look alike. */
  function Get(m: Mapping, key: string): Value { if key in m then m[key] else Null }

  function Items(v: Value): seq<Value> { if v.List? then v.items else [] }

  predicate Truthy(v: Value) {
    match v
    case Null => false
    case Bool(b) => b
    case Int(i) => i != 0
    case Float(r) => r != 0.0
    case NonFinite => true
    case Str(s) => s != ""
    case List(items) => items != []
    case Obj(fields) => fields != map[]
    case Encoded(_) => true
  }

  predicate IsFinite(v: Value) { v.Int? || v.Float? }

  function Exact(v: Value): real
    requires IsFinite(v)
  {
    if v.Int? then v.whole as real else v.number
  }

  // ----- multiples -----

  function Times(k: int, step: real): real { k as real * step }

  predicate Multiple(x: real, step: real)
    requires step != 0.0
  {
    (x / step).Floor as real * step == x
  }

  /** Being a multiple is what it should be. */
  lemma {:induction false} MultipleMeans(x: real, step: real)
    requires step != 0.0
    ensures Multiple(x, step) <==> exists k :: x == Times(k, step)
  {
    if Multiple(x, step) {
      assert x == Times((x / step).Floor, step);
    }
    if k :| x == Times(k, step) {
      Cancels(k as real, step);
      assert x / step == k as real;
    }
  }

  /** Being aligned is to be so many whole steps away, after rounding. */
  lemma {:induction false} AlignedMeans(x: real, step: real)
    requires x >= 0.0 && step != 0.0
    ensures Aligned(x, step) <==> exists k :: -CAPACITY < k as real < CAPACITY && Rounded(x) == Times(k, step)
  {
    hide Multiple, Rounded;
    MultipleMeans(Rounded(x), step);
    RoundedMonotone(0.0, x);
    forall k | Rounded(x) == Times(k, step) ensures Divides(x, step) <==> -CAPACITY < k as real < CAPACITY {
      CountedSteps(k as real, step, Rounded(x));
    }
  }

  function Product(m: real, a: real): real { m * a }

  lemma {:induction false} CountedSteps(k: real, step: real, x: real)
    requires x >= 0.0 && step != 0.0 && x == Product(k, step)
    ensures x < Product(CAPACITY, Abs(step)) <==> -CAPACITY < k < CAPACITY
  {
    hide Product;
    var n := if step < 0.0 then -k else k;
    Turned(k, step);
    Scales(n, CAPACITY, Abs(step));
    Scales(n, 0.0, Abs(step));
  }

  lemma {:induction false} Turned(m: real, a: real)
    ensures Product(-m, -a) == Product(m, a) && Product(0.0, a) == 0.0 == Product(0.0, -a)
  {
  }

  lemma {:induction false} Scales(m: real, n: real, a: real)
    requires a > 0.0
    ensures m < n <==> Product(m, a) < Product(n, a)
  {
    if m < n { assert (n - m) * a > 0.0; } else { assert (m - n) * a >= 0.0; }
  }

  lemma {:induction false} Cancels(a: real, step: real)
    requires step != 0.0
    ensures a * step / step == a
  {
  }

  // ----- decimal arithmetic -----

  /** Differences keep 28 significant digits, and the integer part of a quotient
      may have no more. */
  const CAPACITY: real := 10000000000000000000000000000.0

  /** The nearest integer, and of two the even one. */
  function HalfEven(x: real): int {
    var f := x.Floor;
    if x - f as real < 0.5 || (x - f as real == 0.5 && f % 2 == 0) then f else f + 1
  }

  /** A number to 28 significant digits. */
  function Rounded(x: real): (r: real)
    requires x >= 0.0
    decreases if x >= CAPACITY then x else if x > 0.0 then CAPACITY / x else 0.0
  {
    if x == 0.0 then 0.0
    else if x >= CAPACITY then Rounded(x / 10.0) * 10.0
    else if x < CAPACITY / 10.0 then Shrinks(x); Rounded(x * 10.0) / 10.0
    else HalfEven(x) as real
  }

  lemma {:induction false} Shrinks(x: real)
    requires 0.0 < x < CAPACITY / 10.0
    ensures 0.0 < CAPACITY / (x * 10.0) <= CAPACITY / x - 1.0
  {
    var q := CAPACITY / x;
    assert q * x == CAPACITY;
    assert (q - 10.0) * x > 0.0;
    assert q > 10.0;
    assert (q / 10.0) * (x * 10.0) == CAPACITY;
  }

  function Abs(x: real): real { if x < 0.0 then -x else x }

  /** The remainder of this division can be taken. */
  predicate Divides(x: real, step: real)
    requires x >= 0.0
  {
    Rounded(x) < CAPACITY * Abs(step)
  }

  /** The remainder of this division can be taken and is zero. */
  predicate Aligned(x: real, step: real)
    requires x >= 0.0 && step != 0.0
  {
    Divides(x, step) && Multiple(Rounded(x), step)
  }

  lemma {:induction false} RoundedRange(x: real)
    requires x >= 0.0
    ensures x <= CAPACITY / 10.0 ==> 0.0 <= Rounded(x) <= CAPACITY / 10.0
    ensures x <= CAPACITY ==> 0.0 <= Rounded(x) <= CAPACITY
    ensures x >= CAPACITY / 10.0 ==> Rounded(x) >= CAPACITY / 10.0
    ensures x >= CAPACITY ==> Rounded(x) >= CAPACITY
    decreases if x >= CAPACITY then x else if x > 0.0 then CAPACITY / x else 0.0
  {
    if x >= CAPACITY {
      RoundedRange(x / 10.0);
    } else if 0.0 < x < CAPACITY / 10.0 {
      Shrinks(x);
      RoundedRange(x * 10.0);
    }
  }

  lemma {:induction false} HalfEvenMonotone(x: real, y: real)
    requires x <= y
    ensures HalfEven(x) <= HalfEven(y)
  {
  }

  lemma {:induction false} RoundedMonotone(x: real, y: real)
    requires 0.0 <= x <= y
    ensures 0.0 <= Rounded(x) <= Rounded(y)
    decreases if x >= CAPACITY then x else if x > 0.0 then CAPACITY / x else 0.0
  {
    RoundedRange(x);
    RoundedRange(y);
    if x >= CAPACITY {
      RoundedMonotone(x / 10.0, y / 10.0);
    } else if 0.0 < x && y < CAPACITY / 10.0 {
      Shrinks(x);
      RoundedMonotone(x * 10.0, y * 10.0);
    } else if x >= CAPACITY / 10.0 && y < CAPACITY {
      HalfEvenMonotone(x, y);
    }
  }

  /** A smaller number is divided whenever a larger one is. */
  lemma {:induction false} DividesLess(x: real, y: real, step: real)
    requires 0.0 <= x <= y && Divides(y, step)
    ensures Divides(x, step)
  {
    RoundedMonotone(x, y);
  }

  /** Rounding changes a number by at most half a unit of its last digit. */
  lemma {:induction false} RoundedIsClose(x: real)
    requires x >= 0.0
    ensures Abs(Rounded(x) - x) * (CAPACITY / 5.0) <= x
    decreases if x >= CAPACITY then x else if x > 0.0 then CAPACITY / x else 0.0
  {
    if x >= CAPACITY {
      RoundedIsClose(x / 10.0);
    } else if 0.0 < x < CAPACITY / 10.0 {
      Shrinks(x);
      RoundedIsClose(x * 10.0);
    }
  }

  /** No integer is nearer, and of two that are equally near the even one is taken. */
  lemma {:induction false} HalfEvenMeans(x: real, k: int)
    ensures Abs(HalfEven(x) as real - x) <= Abs(k as real - x)
    ensures k != HalfEven(x) && Abs(HalfEven(x) as real - x) == Abs(k as real - x) ==> HalfEven(x) % 2 == 0
  {
  }

  function Power(e: nat): (r: int)
    ensures r >= 1
  {
    if e == 0 then 1 else 10 * Power(e - 1)
  }

  lemma {:induction false} RoundedWhole(k: nat)
    requires k as real <= CAPACITY
    ensures Rounded(k as real) == k as real
    decreases CAPACITY.Floor - k
  {
    if 0 < k && k as real < CAPACITY / 10.0 {
      RoundedWhole(10 * k);
    }
  }

  /** A number of up to 28 significant digits stays what it is. */
  lemma {:induction false} RoundedExact(k: nat, e: nat)
    requires k as real <= CAPACITY
    ensures Rounded(k as real / Power(e) as real) == k as real / Power(e) as real
  {
    if e == 0 {
      RoundedWhole(k);
    } else {
      RoundedExact(k, e - 1);
      hide Rounded;
      Tenth(k as real, Power(e - 1) as real);
      TenTimes(k as real / Power(e) as real, k as real / Power(e - 1) as real);
    }
  }

  lemma {:induction false} Tenth(k: real, p: real)
    requires k >= 0.0 && p >= 1.0
    ensures 0.0 <= k / (10.0 * p) && k / (10.0 * p) * 10.0 == k / p <= k
  {
    assert k / p * p == k;
    assert k / (10.0 * p) * (10.0 * p) == k;
  }

  lemma {:induction false} TenTimes(x: real, y: real)
    requires 0.0 <= x && x * 10.0 == y <= CAPACITY && Rounded(y) == y
    ensures Rounded(x) == x
  {
    if x == CAPACITY / 10.0 { RoundedWhole(x.Floor); }
  }

  // ----- decimal integers -----

  function Digit(n: nat): char
    requires n < 10
  {
    '0' + n as char
  }

  function PrintNat(n: nat): (s: string)
    ensures s != "" && Digits(s)
    ensures n > 0 ==> s[0] != '0'
    ensures n == 0 ==> s == "0"
  {
    if n < 10 then [Digit(n)] else PrintNat(n / 10) + [Digit(n % 10)]
  }

  function Print(i: int): string { if i < 0 then "-" + PrintNat(-i) else PrintNat(i) }

  predicate Digits(s: string) { forall i :: 0 <= i < |s| ==> '0' <= s[i] <= '9' }

  /** An optional sign, then zero or digits that do not start with zero. */
  predicate Canonical(s: string) {
    var digits := if s != "" && s[0] == '-' then s[1..] else s;
    digits != "" && Digits(digits) && (digits[0] == '0' ==> |digits| == 1)
  }

  function ParseNat(s: string): nat
    requires Digits(s)
  {
    if s == "" then 0 else ParseNat(s[..|s| - 1]) * 10 + (s[|s| - 1] as int - '0' as int)
  }

  function Parse(s: string): int
    requires Canonical(s)
  {
    if s[0] == '-' then -(ParseNat(s[1..]) as int) else ParseNat(s)
  }

  lemma {:induction false} ParsePrintNat(n: nat)
    ensures ParseNat(PrintNat(n)) == n
  {
    var s := PrintNat(n);
    if n >= 10 {
      ParsePrintNat(n / 10);
      assert s[..|s| - 1] == PrintNat(n / 10);
    } else {
      assert s[..0] == "";
    }
  }

  /** A printed integer is canonical and reads back as itself. */
  lemma {:induction false} ParsePrint(i: int)
    ensures Canonical(Print(i)) && Parse(Print(i)) == i
  {
    if i < 0 {
      ParsePrintNat(-i);
      assert Print(i)[1..] == PrintNat(-i);
    } else {
      ParsePrintNat(i);
      assert '0' <= PrintNat(i)[0] <= '9';
    }
  }
}
