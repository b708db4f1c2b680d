/** Mongo ObjectIds: 12-byte identifiers written as 24 hexadecimal digits.
    Ids compare as big-endian numbers, which is the order `sort({ _id: 1 })`
    and `{ _id: { $gt: cursor } }` use. */
module ObjectIds {
  import opened Values

  const DIGITS: nat := 24
  const BOUND: nat := 0x1_0000_0000_0000_0000_0000_0000

  type ObjectId = x: int | 0 <= x < BOUND

  function Pow16(n: nat): (p: nat)
    ensures p >= 1
  {
    if n == 0 then 1 else 16 * Pow16(n - 1)
  }

  predicate IsHexDigit(c: char) {
    ('0' <= c <= '9') || ('a' <= c <= 'f') || ('A' <= c <= 'F')
  }

  predicate AllHex(s: string) {
    forall i :: 0 <= i < |s| ==> IsHexDigit(s[i])
  }

  function DigitValue(c: char): (v: nat)
    requires IsHexDigit(c)
    ensures v < 16
  {
    if '0' <= c <= '9' then c as int - '0' as int
    else if 'a' <= c <= 'f' then c as int - 'a' as int + 10
    else c as int - 'A' as int + 10
  }

  /** The lower-case digit for a value below 16. */
  function HexChar(v: nat): (c: char)
    requires v < 16
    ensures IsHexDigit(c) && DigitValue(c) == v
    ensures !('A' <= c <= 'F')
  {
    if v < 10 then ('0' as int + v) as char else ('a' as int + v - 10) as char
  }

  /** The number a string of hex digits denotes, most significant digit first. */
  function HexValue(s: string): (v: nat)
    requires AllHex(s)
    ensures v < Pow16(|s|)
  {
    if s == [] then 0
    else
      var init := s[..|s| - 1];
      assert AllHex(init);
      var high := HexValue(init);
      assert high * 16 <= (Pow16(|init|) - 1) * 16;
      high * 16 + DigitValue(s[|s| - 1])
  }

  /** The last n hex digits of x, lower case, most significant first. */
  function ToHex(x: nat, n: nat): (s: string)
    ensures |s| == n && AllHex(s)
  {
    if n == 0 then [] else ToHex(x / 16, n - 1) + [HexChar(x % 16)]
  }

  /** `id.toString()`: the 24-digit lower-case rendering. */
  function Hex(id: ObjectId): (s: string)
    ensures |s| == DIGITS && AllHex(s)
  {
    ToHex(id, DIGITS)
  }

  lemma Pow16Digits()
    ensures Pow16(DIGITS) == BOUND
  {
    assert Pow16(4) == 0x1_0000;
    assert Pow16(8) == 0x1_0000_0000;
    assert Pow16(12) == 0x1_0000_0000_0000;
    assert Pow16(16) == 0x1_0000_0000_0000_0000;
    assert Pow16(20) == 0x1_0000_0000_0000_0000_0000;
    assert Pow16(24) == 0x1_0000_0000_0000_0000_0000_0000;
  }

  /** `mongoose.Types.ObjectId.isValid(s)` followed by the cast: a string
      is an id exactly when it is 24 hex digits, either case. */
  function ParseObjectId(s: string): (r: Option<ObjectId>)
    ensures r.Some? <==> |s| == DIGITS && AllHex(s)
  {
    if |s| == DIGITS && AllHex(s) then
      Pow16Digits();
      Some(HexValue(s) as ObjectId)
    else
      None
  }

  lemma ModOfShift(x: nat, p: nat)
    requires p >= 1
    ensures ((x / 16) % p) * 16 + x % 16 == x % (16 * p)
  {
    var q, r := x / 16, x % 16;
    var a, b := q / p, q % p;
    assert x == 16 * q + r;
    assert q == a * p + b;
    assert x == (16 * p) * a + (16 * b + r) by {
      assert 16 * q == 16 * (a * p) + 16 * b;
      assert 16 * (a * p) == (16 * p) * a;
    }
    assert 0 <= 16 * b + r < 16 * p;
    DivModUnique(x, 16 * p, a, 16 * b + r);
  }

  /** Euclidean division is determined by quotient and remainder. */
  lemma DivModUnique(x: nat, m: nat, k: nat, r: nat)
    requires m >= 1 && r < m && x == m * k + r
    ensures x / m == k && x % m == r
  {
    var q := x / m;
    assert x == m * q + x % m;
    if k < q {
      MulMonotone(m, k + 1, q);
    } else if k > q {
      MulMonotone(m, q + 1, k);
    }
  }

  lemma MulMonotone(m: nat, a: nat, b: nat)
    requires a <= b
    ensures m * a <= m * b
  {
  }

  /** Reading back the rendering of x gives x modulo the width. */
  lemma {:induction false} ToHexValue(x: nat, n: nat)
    ensures HexValue(ToHex(x, n)) == x % Pow16(n)
  {
    if n > 0 {
      var s := ToHex(x, n);
      var init := ToHex(x / 16, n - 1);
      assert s[..|s| - 1] == init;
      ToHexValue(x / 16, n - 1);
      ModOfShift(x, Pow16(n - 1));
    }
  }

  /** The cursor a client echoes back parses to the id it was given. */
  lemma {:induction false} ParseHex(id: ObjectId)
    ensures ParseObjectId(Hex(id)) == Some(id)
  {
    ToHexValue(id, DIGITS);
    Pow16Digits();
    DivModUnique(id, BOUND, 0, id);
    assert HexValue(Hex(id)) == id;
  }

  /** Distinct ids render differently. */
  lemma HexInjective(a: ObjectId, b: ObjectId)
    ensures Hex(a) == Hex(b) <==> a == b
  {
    ParseHex(a);
    ParseHex(b);
  }
}
