/** The little-endian fields messages are made of (crates/snapcast-proto/src/types.rs,
    message/wire.rs), as bytes and as reads from a byte stream. */
module Wire {
  import opened Bytes
  import opened Timestamps

  const U16_SPAN := 0x1_0000
  const U32_SPAN := 0x1_0000_0000

  /** Longest payload, and longest length-prefixed field, a reader accepts: 2 MiB. */
  const MAX_PAYLOAD: nat := 2_097_152

  type u16 = x: nat | x < U16_SPAN

  type u32 = x: nat | x < U32_SPAN

  type i32 = x: int | FitsI32(x)

  datatype WireError = EndOfInput | TooLarge(len: nat)

  /** What a read makes of a byte stream: a value and the bytes after it. */
  datatype Parsed<+T> = Got(value: T, rest: seq<byte>) | Fail(error: WireError)

  // ----- Integers -----

  function U16(v: u16): (s: seq<byte>)
    ensures |s| == 2
  {
    [(v % 0x100) as byte, (v / 0x100) as byte]
  }

  function U32(v: u32): (s: seq<byte>)
    ensures |s| == 4
  {
    U16(v % U16_SPAN) + U16(v / U16_SPAN)
  }

  function Unsigned(v: i32): u32 {
    assert FitsI32(v);
    if v < 0 then v + U32_SPAN else v
  }

  /** Two's complement. */
  function I32(v: i32): (s: seq<byte>)
    ensures |s| == 4
  {
    U32(Unsigned(v))
  }

  function ParseU16(s: seq<byte>): Parsed<u16> {
    if |s| < 2 then Fail(EndOfInput) else Got(s[0] as nat + 0x100 * (s[1] as nat), s[2..])
  }

  function ParseU32(s: seq<byte>): Parsed<u32> {
    if |s| < 4 then Fail(EndOfInput)
    else
      var low: nat := s[0] as nat + 0x100 * (s[1] as nat);
      var high: nat := s[2] as nat + 0x100 * (s[3] as nat);
      Got(low + U16_SPAN * high, s[4..])
  }

  function ParseI32(s: seq<byte>): Parsed<i32> {
    match ParseU32(s)
    case Fail(e) => Fail(e)
    case Got(v, rest) => Got(AsI32(v), rest)
  }

  lemma U16RoundTrip(v: u16, rest: seq<byte>)
    ensures ParseU16(U16(v) + rest) == Got(v, rest)
  {
    assert (U16(v) + rest)[2..] == rest;
  }

  lemma U32RoundTrip(v: u32, rest: seq<byte>)
    ensures ParseU32(U32(v) + rest) == Got(v, rest)
  {
    assert (U32(v) + rest)[4..] == rest;
    var low, high := v % U16_SPAN, v / U16_SPAN;
    assert low == low % 0x100 + 0x100 * (low / 0x100);
    assert high == high % 0x100 + 0x100 * (high / 0x100);
  }

  lemma I32RoundTrip(v: i32, rest: seq<byte>)
    ensures ParseI32(I32(v) + rest) == Got(v, rest)
  {
    U32RoundTrip(Unsigned(v), rest);
    assert FitsI32(v) && AsI32(Unsigned(v)) == v;
  }

  /** A number is read from its own bytes and from no others. */
  lemma U16Exact(s: seq<byte>)
    requires ParseU16(s).Got?
    ensures s == U16(ParseU16(s).value) + ParseU16(s).rest
  {
  }

  lemma U32Exact(s: seq<byte>)
    requires ParseU32(s).Got?
    ensures s == U32(ParseU32(s).value) + ParseU32(s).rest
  {
    var low: nat := s[0] as nat + 0x100 * (s[1] as nat);
    var high: nat := s[2] as nat + 0x100 * (s[3] as nat);
    var v := ParseU32(s).value;
    assert v % U16_SPAN == low && v / U16_SPAN == high;
    assert s == U16(low) + U16(high) + s[4..];
  }

  lemma I32Exact(s: seq<byte>)
    requires ParseI32(s).Got?
    ensures s == I32(ParseI32(s).value) + ParseI32(s).rest
  {
    U32Exact(s);
  }

  // ----- Timestamps -----

  predicate FitsWire(t: Timeval) {
    FitsI32(t.sec) && FitsI32(t.usec)
  }

  function Tv(t: Timeval): (s: seq<byte>)
    requires FitsWire(t)
    ensures |s| == 8
  {
    I32(t.sec) + I32(t.usec)
  }

  function ParseTv(s: seq<byte>): Parsed<Timeval> {
    match ParseI32(s)
    case Fail(e) => Fail(e)
    case Got(sec, s1) =>
      match ParseI32(s1)
      case Fail(e) => Fail(e)
      case Got(usec, s2) => Got(Timeval(sec, usec), s2)
  }

  lemma TvRoundTrip(t: Timeval, rest: seq<byte>)
    requires FitsWire(t)
    ensures ParseTv(Tv(t) + rest) == Got(t, rest)
  {
    assert Tv(t) + rest == I32(t.sec) + (I32(t.usec) + rest);
    I32RoundTrip(t.sec, I32(t.usec) + rest);
    I32RoundTrip(t.usec, rest);
  }

  lemma TvExact(s: seq<byte>)
    requires ParseTv(s).Got?
    ensures FitsWire(ParseTv(s).value)
    ensures s == Tv(ParseTv(s).value) + ParseTv(s).rest
  {
    I32Exact(s);
    I32Exact(ParseI32(s).rest);
  }

  // ----- Length-prefixed fields -----

  /** A length that does not fit 32 bits is written cut down to them. */
  function Field(data: seq<byte>): (s: seq<byte>)
    ensures |s| == 4 + |data|
  {
    U32(|data| % U32_SPAN) + data
  }

  function ParseLen(s: seq<byte>): Parsed<nat> {
    match ParseU32(s)
    case Fail(e) => Fail(e)
    case Got(len, rest) => if len > MAX_PAYLOAD then Fail(TooLarge(len)) else Got(len, rest)
  }

  function ParseField(s: seq<byte>): Parsed<seq<byte>> {
    match ParseLen(s)
    case Fail(e) => Fail(e)
    case Got(len, rest) => if |rest| < len then Fail(EndOfInput) else Got(rest[..len], rest[len..])
  }

  lemma FieldRoundTrip(data: seq<byte>, rest: seq<byte>)
    requires |data| <= MAX_PAYLOAD
    ensures ParseField(Field(data) + rest) == Got(data, rest)
  {
    assert Field(data) + rest == U32(|data|) + (data + rest);
    U32RoundTrip(|data|, data + rest);
    assert (data + rest)[..|data|] == data && (data + rest)[|data|..] == rest;
  }

  lemma FieldExact(s: seq<byte>)
    requires ParseField(s).Got?
    ensures |ParseField(s).value| <= MAX_PAYLOAD
    ensures s == Field(ParseField(s).value) + ParseField(s).rest
  {
    U32Exact(s);
    var len, rest := ParseLen(s).value, ParseLen(s).rest;
    assert rest == rest[..len] + rest[len..];
  }

  /** Six fields appended one after the other, and the same six grouped as they are
      read. */
  lemma RegroupSix(s: seq<byte>, a: seq<byte>, b: seq<byte>, c: seq<byte>, d: seq<byte>, e: seq<byte>, f: seq<byte>)
    ensures s + a + b + c + d + e + f == s + (a + (b + (c + (d + (e + f)))))
  {
    assert s + a + b == s + (a + b);
    assert s + a + b + c == s + (a + (b + c));
    assert s + a + b + c + d == s + (a + (b + (c + d)));
    assert s + a + b + c + d + e == s + (a + (b + (c + (d + e))));
  }

  // ----- Reading and writing in place -----

  datatype Result<+T> = Ok(value: T) | Err(error: WireError) {
    predicate IsFailure() {
      Err?
    }

    function PropagateFailure<U>(): Result<U>
      requires IsFailure()
    {
      Err(error)
    }

    function Extract(): T
      requires !IsFailure()
    {
      value
    }
  }

  /** A read delivered what the parse of the stream says, and left the rest. */
  ghost predicate Reads<T>(r: Result<T>, rest: seq<byte>, parsed: Parsed<T>) {
    match parsed
    case Got(v, s) => r == Ok(v) && rest == s
    case Fail(e) => r == Err(e)
  }

  class Reader {
    const data: seq<byte>
    var pos: nat

    constructor (data: seq<byte>)
      ensures Valid() && Rest() == data
    {
      this.data, pos := data, 0;
    }

    ghost predicate Valid()
      reads this
    {
      pos <= |data|
    }

    ghost function Rest(): seq<byte>
      requires Valid()
      reads this
    {
      data[pos..]
    }

    method ReadExact(n: nat) returns (r: Result<seq<byte>>)
      requires Valid()
      modifies this`pos
      ensures Valid()
      ensures r == if |old(Rest())| < n then Err(EndOfInput) else Ok(old(Rest())[..n])
      ensures r.Ok? ==> Rest() == old(Rest())[n..]
    {
      if |data| - pos < n {
        pos := |data|;
        return Err(EndOfInput);
      }
      assert data[pos..][..n] == data[pos..pos + n];
      r := Ok(data[pos..pos + n]);
      pos := pos + n;
    }

    method ReadU16() returns (r: Result<u16>)
      requires Valid()
      modifies this`pos
      ensures Valid() && Reads(r, Rest(), ParseU16(old(Rest())))
    {
      var b :- ReadExact(2);
      r := Ok(b[0] as nat + 0x100 * (b[1] as nat));
    }

    method ReadU32() returns (r: Result<u32>)
      requires Valid()
      modifies this`pos
      ensures Valid() && Reads(r, Rest(), ParseU32(old(Rest())))
    {
      var b :- ReadExact(4);
      var low: nat := b[0] as nat + 0x100 * (b[1] as nat);
      var high: nat := b[2] as nat + 0x100 * (b[3] as nat);
      r := Ok(low + U16_SPAN * high);
    }

    method ReadI32() returns (r: Result<i32>)
      requires Valid()
      modifies this`pos
      ensures Valid() && Reads(r, Rest(), ParseI32(old(Rest())))
    {
      var v :- ReadU32();
      r := Ok(AsI32(v));
    }

    method ReadTimeval() returns (r: Result<Timeval>)
      requires Valid()
      modifies this`pos
      ensures Valid() && Reads(r, Rest(), ParseTv(old(Rest())))
    {
      var sec :- ReadI32();
      var usec :- ReadI32();
      r := Ok(Timeval(sec, usec));
    }

    /** The length is checked before anything is allocated for it. */
    method ReadCheckedLen() returns (r: Result<nat>)
      requires Valid()
      modifies this`pos
      ensures Valid() && Reads(r, Rest(), ParseLen(old(Rest())))
    {
      var len :- ReadU32();
      if len > MAX_PAYLOAD {
        return Err(TooLarge(len));
      }
      r := Ok(len);
    }

    method ReadBytes() returns (r: Result<seq<byte>>)
      requires Valid()
      modifies this`pos
      ensures Valid() && Reads(r, Rest(), ParseField(old(Rest())))
    {
      var len :- ReadCheckedLen();
      var data :- ReadExact(len);
      r := Ok(data);
    }
  }

  class Writer {
    var out: seq<byte>

    constructor ()
      ensures out == []
    {
      out := [];
    }

    method WriteU16(v: u16)
      modifies this
      ensures out == old(out) + U16(v)
    {
      out := out + [(v % 0x100) as byte, (v / 0x100) as byte];
    }

    method WriteU32(v: u32)
      modifies this
      ensures out == old(out) + U32(v)
    {
      WriteU16(v % U16_SPAN);
      WriteU16(v / U16_SPAN);
    }

    method WriteI32(v: i32)
      modifies this
      ensures out == old(out) + I32(v)
    {
      WriteU32(Unsigned(v));
    }

    method WriteTimeval(t: Timeval)
      requires FitsWire(t)
      modifies this
      ensures out == old(out) + Tv(t)
    {
      WriteI32(t.sec);
      WriteI32(t.usec);
    }

    method WriteBytes(data: seq<byte>)
      modifies this
      ensures out == old(out) + Field(data)
    {
      WriteU32(|data| % U32_SPAN);
      out := out + data;
    }
  }
}
