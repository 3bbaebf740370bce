/** The CompactSize integers and length-prefixed byte fields of l2geth/common/varbytes.go. */
module VarBytes {
  import opened Common

  type byte = x: nat | x < 256
  type bytes = seq<byte>

  datatype ReadError = ShortRead | NonCanonical | TooLong
  datatype Read<+T> = Ok(value: T) | Err(error: ReadError)

  // ----- little-endian numbers -----

  function Pow256(w: nat): nat { if w == 0 then 1 else 256 * Pow256(w - 1) }

  function ToLittle(n: nat, w: nat): bytes { if w == 0 then [] else [n % 256] + ToLittle(n / 256, w - 1) }

  function FromLittle(b: bytes): nat { if b == [] then 0 else b[0] + 256 * FromLittle(b[1..]) }

  lemma {:induction false} LittleThere(n: nat, w: nat)
    requires n < Pow256(w)
    ensures |ToLittle(n, w)| == w && FromLittle(ToLittle(n, w)) == n
    decreases w
  {
    if w > 0 {
      LittleThere(n / 256, w - 1);
      assert ToLittle(n, w)[1..] == ToLittle(n / 256, w - 1);
    }
  }

  lemma LowByte(low: byte, high: nat)
    ensures (low + 256 * high) % 256 == low && (low + 256 * high) / 256 == high
  {
  }

  lemma {:induction false} LittleBack(b: bytes)
    ensures FromLittle(b) < Pow256(|b|) && ToLittle(FromLittle(b), |b|) == b
  {
    if b != [] {
      LittleBack(b[1..]);
      assert b == [b[0]] + b[1..];
      LowByte(b[0], FromLittle(b[1..]));
    }
  }

  lemma Widths()
    ensures Pow256(1) == 0x100 && Pow256(2) == 0x1_0000 && Pow256(4) == 0x1_0000_0000 && Pow256(8) == UINT64
  {
  }

  // ----- integers -----

  /** Bytes after the discriminant, the discriminant, and the least value each may carry. */
  function Width(v: nat): nat { if v <= 0xffff then 2 else if v <= 0xffff_ffff then 4 else 8 }

  function Discriminant(w: nat): byte { if w == 2 then 0xfd else if w == 4 then 0xfe else 0xff }

  function Least(w: nat): nat { if w == 2 then 0xfd else if w == 4 then 0x1_0000 else 0x1_0000_0000 }

  function EncodeInt(v: nat): bytes
    requires v < UINT64
  {
    if v < 0xfd then [v] else [Discriminant(Width(v))] + ToLittle(v, Width(v))
  }

  function SerializeSize(v: nat): nat
    requires v < UINT64
  {
    if v < 0xfd then 1 else if v <= 0xffff then 3 else if v <= 0xffff_ffff then 5 else 9
  }

  /** `io.ReadFull`: all of it, or an error and nothing left. */
  function Take(s: bytes, n: nat): (Read<bytes>, bytes) {
    if |s| < n then (Err(ShortRead), []) else (Ok(s[..n]), s[n..])
  }

  /** Reading a number of `w` bytes that must be at least `least`. */
  function DecodeWide(s: bytes, w: nat, least: nat): (Read<nat>, bytes) {
    match Take(s, w)
    case (Err(e), rest) => (Err(e), rest)
    case (Ok(b), rest) => (if FromLittle(b) < least then Err(NonCanonical) else Ok(FromLittle(b)), rest)
  }

  function DecodeInt(s: bytes): (Read<nat>, bytes) {
    if s == [] then (Err(ShortRead), [])
    else if s[0] == 0xff then DecodeWide(s[1..], 8, 0x1_0000_0000)
    else if s[0] == 0xfe then DecodeWide(s[1..], 4, 0x1_0000)
    else if s[0] == 0xfd then DecodeWide(s[1..], 2, 0xfd)
    else (Ok(s[0]), s[1..])
  }

  lemma WideThere(v: nat, w: nat, least: nat, tail: bytes)
    requires least <= v < Pow256(w)
    ensures DecodeWide(ToLittle(v, w) + tail, w, least) == (Ok(v), tail)
  {
    LittleThere(v, w);
    var s := ToLittle(v, w) + tail;
    assert s[..w] == ToLittle(v, w) && s[w..] == tail;
  }

  lemma WideBack(s: bytes, w: nat, least: nat)
    requires DecodeWide(s, w, least).0.Ok?
    ensures var (v, rest) := DecodeWide(s, w, least);
            least <= v.value < Pow256(w) && s == ToLittle(v.value, w) + rest && |ToLittle(v.value, w)| == w
  {
    LittleBack(s[..w]);
    assert s == s[..w] + s[w..];
  }

  lemma TaggedThere(v: nat, w: nat, tail: bytes)
    requires (w == 2 || w == 4 || w == 8) && Least(w) <= v < Pow256(w)
    ensures DecodeInt([Discriminant(w)] + (ToLittle(v, w) + tail)) == (Ok(v), tail)
  {
    var s := [Discriminant(w)] + (ToLittle(v, w) + tail);
    assert s[0] == Discriminant(w) && s[1..] == ToLittle(v, w) + tail;
    WideThere(v, w, Least(w), tail);
  }

  lemma WideIntThere(v: nat, w: nat, tail: bytes)
    requires 0xfd <= v < UINT64 && w == Width(v)
    ensures DecodeInt(EncodeInt(v) + tail) == (Ok(v), tail) && |EncodeInt(v)| == 1 + w
  {
    Widths();
    LittleThere(v, w);
    TaggedThere(v, w, tail);
    assert EncodeInt(v) + tail == [Discriminant(w)] + (ToLittle(v, w) + tail);
  }

  /** Reading back what was written gives the value and leaves exactly what followed. */
  lemma IntRoundTrip(v: nat, tail: bytes)
    requires v < UINT64
    ensures DecodeInt(EncodeInt(v) + tail) == (Ok(v), tail)
    ensures |EncodeInt(v)| == SerializeSize(v)
  {
    if v < 0xfd {
      assert (EncodeInt(v) + tail)[1..] == tail;
    } else {
      WideIntThere(v, Width(v), tail);
    }
  }

  /** A successful read consumed exactly the canonical encoding of its result. */
  lemma IntCanonical(s: bytes)
    requires DecodeInt(s).0.Ok?
    ensures var (v, rest) := DecodeInt(s);
            v.value < UINT64 && s == EncodeInt(v.value) + rest && |s| == SerializeSize(v.value) + |rest|
  {
    Widths();
    assert s == [s[0]] + s[1..];
    if s[0] >= 0xfd {
      var w := if s[0] == 0xfd then 2 else if s[0] == 0xfe then 4 else 8;
      WideBack(s[1..], w, Least(w));
    }
  }

  /** A read succeeds exactly on the strings that begin with an encoding. */
  lemma IntReadsIff(s: bytes)
    ensures DecodeInt(s).0.Ok? <==> exists v: nat, tail: bytes :: v < UINT64 && s == EncodeInt(v) + tail
  {
    if DecodeInt(s).0.Ok? {
      IntCanonical(s);
    } else if v: nat, tail: bytes :| v < UINT64 && s == EncodeInt(v) + tail {
      IntRoundTrip(v, tail);
    }
  }

  /** How many bytes a discriminant announces. */
  function Announced(d: byte): nat { if d == 0xff then 8 else if d == 0xfe then 4 else if d == 0xfd then 2 else 0 }

  /** A read fails for want of bytes exactly when the discriminant or its number is cut off, which uses everything up,
      and otherwise exactly for a number that would have fitted a shorter form, which is used up. */
  lemma IntFailsIff(s: bytes)
    ensures DecodeInt(s).0 == Err(ShortRead) <==> s == [] || |s| < 1 + Announced(s[0])
    ensures DecodeInt(s).0 == Err(ShortRead) ==> DecodeInt(s).1 == []
    ensures DecodeInt(s).0 == Err(NonCanonical) <==>
            && s != [] && s[0] >= 0xfd && |s| >= 1 + Announced(s[0])
            && FromLittle(s[1..1 + Announced(s[0])]) < Least(Announced(s[0]))
    ensures s != [] && |s| >= 1 + Announced(s[0]) ==> DecodeInt(s).1 == s[1 + Announced(s[0])..]
  {
    if s != [] && |s| >= 1 + Announced(s[0]) {
      var w := Announced(s[0]);
      assert s[1..][..w] == s[1..1 + w] && s[1..][w..] == s[1 + w..];
    }
  }

  // ----- byte fields -----

  function EncodeField(b: bytes): bytes
    requires |b| < UINT64
  {
    EncodeInt(|b|) + b
  }

  function DecodeField(s: bytes, max: nat): (Read<bytes>, bytes) {
    match DecodeInt(s)
    case (Err(e), rest) => (Err(e), rest)
    case (Ok(count), rest) => if count > max then (Err(TooLong), rest) else Take(rest, count)
  }

  /** A field reads back exactly when it is within the limit. */
  lemma FieldRoundTrip(b: bytes, max: nat, tail: bytes)
    requires |b| < UINT64
    ensures DecodeField(EncodeField(b) + tail, max) == if |b| <= max then (Ok(b), tail) else (Err(TooLong), b + tail)
  {
    assert EncodeField(b) + tail == EncodeInt(|b|) + (b + tail);
    IntRoundTrip(|b|, b + tail);
    assert (b + tail)[..|b|] == b && (b + tail)[|b|..] == tail;
  }

  /** Any field that reads is the canonical encoding of its bytes. */
  lemma FieldCanonical(s: bytes, max: nat)
    requires DecodeField(s, max).0.Ok?
    ensures var (b, rest) := DecodeField(s, max);
            |b.value| <= max && |b.value| < UINT64 && s == EncodeField(b.value) + rest && |rest| < |s|
  {
    IntCanonical(s);
    var (v, rest) := DecodeInt(s);
    assert rest == rest[..v.value] + rest[v.value..];
    assert s == EncodeInt(v.value) + rest[..v.value] + rest[v.value..];
  }

  // ----- sequences of fields -----

  predicate Within(fields: seq<bytes>, max: nat) {
    forall i | 0 <= i < |fields| :: |fields[i]| <= max
  }

  function EncodeFields(fields: seq<bytes>): bytes
    requires Within(fields, UINT64 - 1)
  {
    if fields == [] then [] else EncodeField(fields[0]) + EncodeFields(fields[1..])
  }

  /** Read fields until nothing is left. */
  function DecodeFields(s: bytes, max: nat): Read<seq<bytes>>
    decreases |s|
  {
    if s == [] then Ok([])
    else
      var (b, rest) := DecodeField(s, max);
      if b.Err? then Err(b.error)
      else
        FieldCanonical(s, max);
        var more := DecodeFields(rest, max);
        if more.Err? then more else Ok([b.value] + more.value)
  }

  lemma FirstField(b: bytes, rest: bytes, max: nat)
    requires |b| <= max < UINT64 && DecodeFields(rest, max).Ok?
    ensures DecodeFields(EncodeField(b) + rest, max) == Ok([b] + DecodeFields(rest, max).value)
  {
    FieldRoundTrip(b, max, rest);
    IntRoundTrip(|b|, []);
    assert |EncodeField(b) + rest| > 0;
  }

  lemma {:induction false} FieldsRoundTrip(fields: seq<bytes>, max: nat)
    requires max < UINT64 && Within(fields, max)
    ensures DecodeFields(EncodeFields(fields), max) == Ok(fields)
  {
    if fields != [] {
      var rest := EncodeFields(fields[1..]);
      FieldsRoundTrip(fields[1..], max);
      FirstField(fields[0], rest, max);
      assert EncodeFields(fields) == EncodeField(fields[0]) + rest;
      assert fields == [fields[0]] + fields[1..];
    }
  }

  /** Two lists of fields within the limit that are written to the same bytes are the same list. */
  lemma FieldsUnique(a: seq<bytes>, b: seq<bytes>, max: nat)
    requires max < UINT64 && Within(a, max) && Within(b, max) && EncodeFields(a) == EncodeFields(b)
    ensures a == b
  {
    FieldsRoundTrip(a, max);
    FieldsRoundTrip(b, max);
  }

  /** And every byte string that reads as fields is the encoding of those fields. */
  lemma {:induction false} FieldsCanonical(s: bytes, max: nat)
    requires max < UINT64 && DecodeFields(s, max).Ok?
    ensures Within(DecodeFields(s, max).value, max) && EncodeFields(DecodeFields(s, max).value) == s
    decreases |s|
  {
    if s != [] {
      FieldCanonical(s, max);
      var (b, rest) := DecodeField(s, max);
      FieldsCanonical(rest, max);
      var fields := DecodeFields(s, max).value;
      assert fields[0] == b.value && fields[1..] == DecodeFields(rest, max).value;
    }
  }

  // ----- readers and writers -----

  class ByteReader {
    var rest: bytes

    constructor (s: bytes)
      ensures rest == s
    {
      rest := s;
    }

    method ReadFull(n: nat) returns (r: Read<bytes>)
      modifies this
      ensures (r, rest) == Take(old(rest), n)
    {
      if |rest| < n {
        rest := [];
        return Err(ShortRead);
      }
      r := Ok(rest[..n]);
      rest := rest[n..];
    }

    method ReadVarInt() returns (r: Read<nat>)
      modifies this
      ensures (r, rest) == DecodeInt(old(rest))
    {
      var discriminant := ReadFull(1);
      if discriminant.Err? {
        return Err(discriminant.error);
      }
      var d := discriminant.value[0];
      if d < 0xfd {
        return Ok(d);
      }
      var w, least;
      if d == 0xff {
        w, least := 8, 0x1_0000_0000;
      } else if d == 0xfe {
        w, least := 4, 0x1_0000;
      } else {
        w, least := 2, 0xfd;
      }
      var b := ReadFull(w);
      if b.Err? {
        return Err(b.error);
      }
      var rv := FromLittle(b.value);
      if rv < least {
        return Err(NonCanonical);
      }
      r := Ok(rv);
    }

    method ReadVarBytes(maxAllowed: nat) returns (r: Read<bytes>)
      modifies this
      ensures (r, rest) == DecodeField(old(rest), maxAllowed)
    {
      var count := ReadVarInt();
      if count.Err? {
        return Err(count.error);
      }
      if count.value > maxAllowed {
        return Err(TooLong);
      }
      r := ReadFull(count.value);
    }
  }

  /** A writer whose calls may fail: `faults(k)` is `None` when call number k takes all bytes, and otherwise says after
      how many of them it reports an error. */
  class ByteWriter {
    var written: bytes
    var calls: nat
    const faults: nat -> Option<nat>

    constructor (f: nat -> Option<nat>)
      ensures written == [] && calls == 0 && faults == f
    {
      written, calls, faults := [], 0, f;
    }

    /** No call from number `from` on has failed. */
    predicate Clean(from: nat)
      reads this
    {
      forall k: nat | from <= k < calls :: faults(k).None?
    }

    method Write(b: bytes) returns (ok: bool)
      modifies this
      ensures calls == old(calls) + 1
      ensures ok <==> faults(old(calls)).None?
      ensures ok ==> written == old(written) + b
      ensures old(written) <= written <= old(written) + b
    {
      ok := faults(calls).None?;
      var n := if ok then |b| else Min(faults(calls).value, |b|);
      written := written + b[..n];
      calls := calls + 1;
    }

    /** A discriminant and then the number, unless the first already fails. */
    method WriteTagged(tag: byte, val: nat, w: nat) returns (ok: bool)
      modifies this
      ensures calls > old(calls) && (ok <==> Clean(old(calls)))
      ensures ok ==> written == old(written) + ([tag] + ToLittle(val, w))
      ensures old(written) <= written <= old(written) + ([tag] + ToLittle(val, w))
    {
      assert old(written) + ([tag] + ToLittle(val, w)) == old(written) + [tag] + ToLittle(val, w);
      ok := Write([tag]);
      if ok {
        ok := Write(ToLittle(val, w));
      }
    }

    method WriteVarInt(val: nat) returns (ok: bool)
      requires val < UINT64
      modifies this
      ensures calls > old(calls) && (ok <==> Clean(old(calls)))
      ensures ok ==> written == old(written) + EncodeInt(val)
      ensures old(written) <= written <= old(written) + EncodeInt(val)
    {
      if val < 0xfd {
        ok := Write([val]);
      } else if val <= 0xffff {
        ok := WriteTagged(0xfd, val, 2);
      } else if val <= 0xffff_ffff {
        ok := WriteTagged(0xfe, val, 4);
      } else {
        ok := WriteTagged(0xff, val, 8);
      }
    }

    method WriteVarBytes(b: bytes) returns (ok: bool)
      requires |b| < UINT64
      modifies this
      ensures ok <==> Clean(old(calls))
      ensures ok ==> written == old(written) + EncodeField(b)
      ensures old(written) <= written <= old(written) + EncodeField(b)
    {
      assert old(written) + EncodeField(b) == old(written) + EncodeInt(|b|) + b;
      ok := WriteVarInt(|b|);
      if ok {
        ok := Write(b);
      }
    }
  }
}
