/** Shared vocabulary: outcomes, machine-integer bounds, byte strings and finite-set extrema. */
module Prelude {

  datatype Option<+T> = None | Some(value: T) {
    function GetOr(default: T): T {
      match this
      case Some(v) => v
      case None => default
    }
  }

  datatype Result<+T, +E> = Ok(value: T) | Err(error: E)

  const U8_BASE: nat := 0x100
  const U16_MAX: nat := 0xFFFF
  const I32_LIMIT: nat := 0x8000_0000
  const U32_BASE: nat := 0x1_0000_0000
  const U32_MAX: nat := 0xFFFF_FFFF
  const U64_BASE: nat := 0x1_0000_0000_0000_0000
  const U64_MAX: nat := 0xFFFF_FFFF_FFFF_FFFF

  type byte = x: int | 0 <= x < 256

  type bytes = seq<byte>

  /** The values of an unsigned 32-bit integer. */
  type u32 = x: int | 0 <= x <= U32_MAX

  /** An addition, subtraction or negation left the range of its type: the process ends there. */
  datatype Abort = Overflow

  /** A cast to an unsigned 32-bit integer, which truncates. */
  function AsU32(n: int): (r: u32) { n % U32_BASE }

  /** A cast to a signed 32-bit integer. */
  function AsI32(n: nat): (r: int) {
    var m := n % U32_BASE;
    if m >= I32_LIMIT then m - U32_BASE else m
  }

  /** A cast to an unsigned 64-bit integer. */
  function AsU64(n: int): (r: nat) { n % U64_BASE }

  function Max(a: int, b: int): int { if a < b then b else a }

  function Min(a: int, b: int): int { if a < b then a else b }

  lemma {:induction false} ConcatAssoc<T>(a: seq<T>, b: seq<T>, c: seq<T>)
    ensures (a + b) + c == a + (b + c)
  {
  }

  // ---- Joining buffers ------------------------------------------------------------

  /** The bytes of a list of buffers, in order. */
  function Join<T>(parts: seq<seq<T>>): seq<T> {
    if parts == [] then [] else parts[0] + Join(parts[1..])
  }

  lemma {:induction false} JoinConcat<T>(a: seq<seq<T>>, b: seq<seq<T>>)
    ensures Join(a + b) == Join(a) + Join(b)
  {
    if a == [] {
      assert a + b == b;
    } else {
      assert (a + b)[0] == a[0] && (a + b)[1..] == a[1..] + b;
      JoinConcat(a[1..], b);
      assert a[0] + (Join(a[1..]) + Join(b)) == (a[0] + Join(a[1..])) + Join(b);
    }
  }

  // ---- Big-endian integers --------------------------------------------------------

  function PutU16(n: nat): (b: bytes)
    requires n <= U16_MAX
    ensures |b| == 2
  {
    [n / 0x100, n % 0x100]
  }

  function PutU24(n: nat): (b: bytes)
    requires n < 0x100_0000
    ensures |b| == 3
  {
    [n / 0x1_0000, n / 0x100 % 0x100, n % 0x100]
  }

  function PutU32(n: nat): (b: bytes)
    requires n <= U32_MAX
    ensures |b| == 4
  {
    [n / 0x100_0000, n / 0x1_0000 % 0x100, n / 0x100 % 0x100, n % 0x100]
  }

  function GetU16(b: bytes): (n: nat)
    requires |b| >= 2
    ensures n <= U16_MAX
  {
    b[0] as int * 0x100 + b[1] as int
  }

  function GetU24(b: bytes): (n: nat)
    requires |b| >= 3
    ensures n < 0x100_0000
  {
    b[0] as int * 0x1_0000 + b[1] as int * 0x100 + b[2] as int
  }

  function GetU32(b: bytes): (n: nat)
    requires |b| >= 4
    ensures n <= U32_MAX
  {
    b[0] as int * 0x100_0000 + b[1] as int * 0x1_0000 + b[2] as int * 0x100 + b[3] as int
  }

  lemma {:induction false} U16RoundTrip(n: nat, rest: bytes)
    requires n <= U16_MAX
    ensures GetU16(PutU16(n) + rest) == n
  {
  }

  lemma {:induction false} U24RoundTrip(n: nat, rest: bytes)
    requires n < 0x100_0000
    ensures GetU24(PutU24(n) + rest) == n
  {
  }

  lemma {:induction false} U32RoundTrip(n: nat, rest: bytes)
    requires n <= U32_MAX
    ensures GetU32(PutU32(n) + rest) == n
  {
    var b := PutU32(n);
    assert (PutU32(n) + rest)[..4] == b;
    assert n == n / 0x100 * 0x100 + n % 0x100;
    assert n / 0x100 == n / 0x1_0000 * 0x100 + n / 0x100 % 0x100;
    assert n / 0x1_0000 == n / 0x100_0000 * 0x100 + n / 0x1_0000 % 0x100;
  }

  lemma {:induction false} U16Back(b: bytes)
    requires |b| >= 2
    ensures PutU16(GetU16(b)) == b[..2]
  {
  }

  lemma {:induction false} U24Back(b: bytes)
    requires |b| >= 3
    ensures PutU24(GetU24(b)) == b[..3]
  {
    var n := GetU24(b);
    assert n / 0x100 == b[0] as int * 0x100 + b[1] as int;
    assert n / 0x1_0000 == b[0] as int;
  }

  lemma {:induction false} U32Back(b: bytes)
    requires |b| >= 4
    ensures PutU32(GetU32(b)) == b[..4]
  {
    var n := GetU32(b);
    assert n / 0x100 == b[0] as int * 0x1_0000 + b[1] as int * 0x100 + b[2] as int;
    assert n / 0x1_0000 == b[0] as int * 0x100 + b[1] as int;
    assert n / 0x100_0000 == b[0] as int;
  }

  /** A big-endian two's-complement 32-bit integer. */
  function GetI32(b: bytes): (n: int)
    requires |b| >= 4
    ensures -0x8000_0000 <= n < 0x8000_0000
  {
    var u := GetU32(b);
    if u < 0x8000_0000 then u else u - U32_BASE
  }

  /** A sign-extending cast to a 64-bit unsigned size. */
  function AsUsize(n: int): (u: nat)
    requires -0x8000_0000 <= n < 0x8000_0000
  {
    if n < 0 then n + U64_BASE else n
  }

  // ---- Extrema of finite sets -----------------------------------------------------

  lemma {:induction false} HasMax(s: set<nat>)
    requires s != {}
    ensures exists m :: m in s && forall x :: x in s ==> x <= m
  {
    var x :| x in s;
    var t := s - {x};
    if t == {} {
      assert s == {x};
    } else {
      HasMax(t);
      var m :| m in t && forall y :: y in t ==> y <= m;
      var top := Max(x, m);
      assert forall y :: y in s ==> y == x || y in t;
      assert top in s && forall y :: y in s ==> y <= top;
    }
  }

  lemma {:induction false} HasMin(s: set<nat>)
    requires s != {}
    ensures exists m :: m in s && forall x :: x in s ==> m <= x
  {
    var x :| x in s;
    var t := s - {x};
    if t == {} {
      assert s == {x};
    } else {
      HasMin(t);
      var m :| m in t && forall y :: y in t ==> m <= y;
      var low := Min(x, m);
      assert forall y :: y in s ==> y == x || y in t;
      assert low in s && forall y :: y in s ==> low <= y;
    }
  }

  function MaxOf(s: set<nat>): (m: nat)
    requires s != {}
    ensures m in s && forall x :: x in s ==> x <= m
  {
    HasMax(s);
    var m :| m in s && forall x :: x in s ==> x <= m;
    m
  }

  function MinOf(s: set<nat>): (m: nat)
    requires s != {}
    ensures m in s && forall x :: x in s ==> m <= x
  {
    HasMin(s);
    var m :| m in s && forall x :: x in s ==> m <= x;
    m
  }
}
