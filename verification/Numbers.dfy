/** Decimal integers: how they are printed, and how the parser reads them in 64 and 32 bits. */
module Numbers {
  import opened Bytes

  const MAX_UINT64: nat := 0xFFFF_FFFF_FFFF_FFFF
  const MAX_INT64: nat := 0x7FFF_FFFF_FFFF_FFFF
  const MIN_INT64: int := -0x8000_0000_0000_0000
  const MAX_INT32: nat := 0x7FFF_FFFF
  const MIN_INT32: int := -0x8000_0000

  const HYPHEN: byte := 45
  const PLUS_SIGN: byte := 43

  predicate IsInt64(v: int) { MIN_INT64 <= v <= MAX_INT64 }

  predicate IsInt32(v: int) { MIN_INT32 <= v <= MAX_INT32 }

  function Decimal(n: nat): (d: bytes)
    ensures |d| > 0 && AllDigits(d)
  {
    if n < 10 then [48 + n] else Decimal(n / 10) + [48 + n % 10]
  }

  function FormatInt(v: int): (d: bytes)
    ensures |d| > 0
  {
    if v < 0 then [HYPHEN] + Decimal(-v) else Decimal(v)
  }

  predicate AllDigits(b: bytes) { forall i | 0 <= i < |b| :: IsDigit(b[i]) }

  /** The number that the digits b stand for. */
  function Value(b: bytes): nat
    requires AllDigits(b)
  {
    if b == [] then 0 else 10 * Value(b[..|b| - 1]) + (b[|b| - 1] - 48)
  }

  /** What an unsigned integer column means; None when it is malformed or does not fit 64 bits. */
  function Unsigned(b: bytes): Option<nat> {
    if b == [] || !AllDigits(b) || Value(b) > MAX_UINT64 then None else Some(Value(b))
  }

  function Unsign(b: bytes): bytes {
    if b != [] && (b[0] == HYPHEN || b[0] == PLUS_SIGN) then b[1..] else b
  }

  /** What a signed integer column means; None when it is malformed or does not fit 64 bits. */
  function Signed(b: bytes): Option<int> {
    var u := Unsigned(Unsign(b));
    if u.None? then None
    else
      var n: int := u.value;
      var v := if b[0] == HYPHEN then -n else n;
      if IsInt64(v) then Some(v) else None
  }

  function Signed32(b: bytes): Option<int> {
    var v := Signed(b);
    if v.Some? && IsInt32(v.value) then v else None
  }

  // ----- Parsing -----

  lemma ValueGrows(b: bytes, i: nat)
    requires AllDigits(b) && i <= |b|
    ensures Value(b[..i]) <= Value(b)
    decreases |b|
  {
    if i < |b| {
      var c := b[..|b| - 1];
      assert c[..i] == b[..i];
      ValueGrows(c, i);
    } else {
      assert b[..i] == b;
    }
  }

  method ParseUint(b: bytes) returns (v: nat, ok: bool)
    ensures if ok then Unsigned(b) == Some(v) else Unsigned(b).None?
  {
    if |b| == 0 {
      return 0, false;
    }
    v, ok := 0, true;
    var i := 0;
    while i < |b|
      invariant 0 <= i <= |b| && AllDigits(b[..i]) && v == Value(b[..i]) && v <= MAX_UINT64
    {
      if !IsDigit(b[i]) {
        return 0, false;
      }
      var d := b[i] - 48;
      assert b[..i + 1][..i] == b[..i];
      if v > (MAX_UINT64 - d) / 10 {
        ghost var over := b[..i + 1];
        if AllDigits(b) {
          assert Value(over) == 10 * v + d;
          ValueGrows(b, i + 1);
        }
        return 0, false;
      }
      v := v * 10 + d;
      i := i + 1;
    }
    assert b[..i] == b;
  }

  /** The conversion of an unsigned 64-bit integer to a signed one, which wraps. */
  function AsInt64(u: nat): (v: int)
    requires u <= MAX_UINT64
    ensures IsInt64(v)
  {
    if u <= MAX_INT64 then u else u - MAX_UINT64 - 1
  }

  /** Negation in 64 bits, which leaves the least integer as it is. */
  function Negated64(v: int): (n: int)
    requires IsInt64(v)
    ensures IsInt64(n)
  {
    if v == MIN_INT64 then v else -v
  }

  method ParseInt(b: bytes) returns (v: int, ok: bool)
    ensures if ok then Signed(b) == Some(v) else Signed(b).None? && v == 0
  {
    if |b| == 0 {
      return 0, false;
    }
    var negative, rest := false, b;
    if b[0] == HYPHEN {
      negative, rest := true, b[1..];
    } else if b[0] == PLUS_SIGN {
      rest := b[1..];
    }
    var u;
    u, ok := ParseUint(rest);
    if !ok {
      return 0, false;
    }
    if negative {
      if u > MAX_INT64 + 1 {
        return 0, false;
      }
      return Negated64(AsInt64(u)), true;
    }
    if u > MAX_INT64 {
      return 0, false;
    }
    v := AsInt64(u);
  }

  method ParseInt32(b: bytes) returns (v: int, ok: bool)
    ensures if ok then Signed32(b) == Some(v) else Signed32(b).None? && v == 0
  {
    v, ok := ParseInt(b);
    if !ok || v < MIN_INT32 || v > MAX_INT32 {
      return 0, false;
    }
  }

  // ----- Exactness -----

  lemma {:induction false} ValueOfDecimal(n: nat)
    ensures Value(Decimal(n)) == n
  {
    if n >= 10 {
      ValueOfDecimal(n / 10);
      var d := Decimal(n);
      assert d[..|d| - 1] == Decimal(n / 10);
    } else {
      assert Decimal(n)[..0] == [];
    }
  }

  /** A printed integer reads back as itself, over the full range of 64 and of 32 bits, and not beyond. */
  lemma PrintedReadsBack(v: int)
    ensures Signed(FormatInt(v)) == if IsInt64(v) then Some(v) else None
    ensures Signed32(FormatInt(v)) == if IsInt32(v) then Some(v) else None
  {
    var n := if v < 0 then -v else v;
    var d := Decimal(n);
    ValueOfDecimal(n);
    assert IsDigit(d[0]);
    assert Unsign(FormatInt(v)) == d;
  }

  /** A plus sign changes nothing, and without a digit there is no number. */
  lemma PlusReads(n: nat)
    ensures Signed([43] + Decimal(n)) == Signed(Decimal(n))
    ensures Signed([]).None? && Signed([43]).None? && Signed([45]).None? && Signed32([]).None?
  {
    var b := [43] + Decimal(n);
    assert b[1..] == Decimal(n);
    assert IsDigit(Decimal(n)[0]);
    assert Unsign(b) == Decimal(n) && Unsign(Decimal(n)) == Decimal(n);
    assert Unsign([43]) == [] && Unsign([45]) == [];
  }

  /** Whatever is not a sign, if any, and digits is no number. */
  lemma OnlyDigitsRead(b: bytes, i: nat)
    requires i < |b| && !(48 <= b[i] <= 57) && (i > 0 || (b[0] != 43 && b[0] != 45))
    ensures Signed(b).None? && Signed32(b).None?
  {
    var d := Unsign(b);
    var k := |b| - |d|;
    assert d[i - k] == b[i];
  }
}
