/** Base-128 varints as the native protocol writes and reads them. Bit masks and shifts are written as arithmetic. */
module Varints {

  type Octet = b: int | 0 <= b < 256
  type Bytes = seq<Octet>

  /** A subarray is clamped to the buffer. */
  function Clip(buf: Bytes, from: nat, to: nat): Bytes
    requires from <= to
  {
    if from >= |buf| then [] else if to > |buf| then buf[from..] else buf[from..to]
  }

  /** The number of seven-bit groups the reader accepts. */
  const MAX_GROUPS := 8

  function Pow128(k: nat): (p: nat)
    ensures p > 0
  {
    if k == 0 then 1 else 128 * Pow128(k - 1)
  }

  lemma {:induction false} Pow128Values()
    ensures Pow128(1) == 128 && Pow128(5) == 0x8_0000_0000 && Pow128(8) == 0x100_0000_0000_0000
  {
    assert Pow128(2) == 128 * Pow128(1) && Pow128(3) == 128 * Pow128(2) && Pow128(4) == 128 * Pow128(3);
    assert Pow128(5) == 128 * Pow128(4) && Pow128(6) == 128 * Pow128(5) && Pow128(7) == 128 * Pow128(6);
    assert Pow128(8) == 128 * Pow128(7);
  }

  /** The bytes of a number: low group first, the high bit set on all but the last. */
  function Varint(n: nat): (out: Bytes)
    ensures out != []
  {
    if n < 128 then [n] else [n % 128 + 128] + Varint(n / 128)
  }

  method WriteVarint(n: int, out: Bytes) returns (r: Bytes)
    ensures r == out + Varint(if n > 0 then n else 0)
  {
    var x: nat := if n > 0 then n else 0;
    r := out;
    while x > 0x7f
      invariant r + Varint(x) == out + Varint(if n > 0 then n else 0)
    {
      assert r + Varint(x) == (r + [x % 128 + 128]) + Varint(x / 128);
      r := r + [x % 128 + 128];
      x := x / 128;
    }
    r := r + [x];
  }

  datatype Read = Read(value: nat, offset: nat)

  /** The general loop from group `k` on, with `x` accumulated so far. */
  function ReadGroups(buf: Bytes, offset: nat, x: nat, k: nat): (r: Read)
    requires k < MAX_GROUPS
    ensures r.offset >= offset && (offset < |buf| ==> offset < r.offset <= |buf|)
    decreases |buf| - offset
  {
    if offset >= |buf| then Read(x, offset)
    else
      var b := buf[offset];
      var y := x + b % 128 * Pow128(k);
      if b < 128 || k + 1 >= MAX_GROUPS then Read(y, offset + 1) else ReadGroups(buf, offset + 1, y, k + 1)
  }

  function TwoGroups(b0: nat, b1: nat): nat {
    b0 % 128 + b1 * 128
  }

  /** Reading with the fast paths for one and two bytes. Past the end the value is 0 and nothing is consumed. */
  function ReadVarint(buf: Bytes, offset: nat): (r: Read)
    ensures r.offset >= offset && (offset < |buf| ==> offset < r.offset <= |buf|)
  {
    if offset >= |buf| then Read(0, offset)
    else if buf[offset] < 128 then Read(buf[offset], offset + 1)
    else if offset + 1 < |buf| && buf[offset + 1] < 128 then
      Read(TwoGroups(buf[offset], buf[offset + 1]), offset + 2)
    else ReadGroups(buf, offset + 1, buf[offset] % 128, 1)
  }

  method ReadVarintAt(buf: Bytes, offset: nat) returns (r: Read)
    ensures r == ReadVarint(buf, offset)
  {
    ghost var expected := ReadVarint(buf, offset);
    if offset >= |buf| { return Read(0, offset); }
    var b0 := buf[offset];
    if b0 < 0x80 { return Read(b0, offset + 1); }
    if offset + 1 < |buf| && buf[offset + 1] < 0x80 {
      return Read(TwoGroups(b0, buf[offset + 1]), offset + 2);
    }
    var x: nat, o: nat, k: nat := b0 % 128, offset + 1, 1;
    while o < |buf|
      invariant k < MAX_GROUPS
      invariant expected == ReadGroups(buf, o, x, k)
    {
      var b := buf[o];
      o := o + 1;
      x := x + b % 128 * Pow128(k);
      if b < 128 || k + 1 >= MAX_GROUPS { return Read(x, o); }
      k := k + 1;
    }
    return Read(x, o);
  }

  /** The one- and two-byte fast paths agree with the loop run from the first byte. */
  lemma {:induction false} FastPathsAgree(buf: Bytes, offset: nat)
    ensures ReadVarint(buf, offset) == ReadGroups(buf, offset, 0, 0)
  {
    Pow128Values();
    if offset < |buf| && buf[offset] >= 128 {
      assert ReadGroups(buf, offset, 0, 0) == ReadGroups(buf, offset + 1, buf[offset] % 128, 1);
    }
  }

  lemma GroupShift(n: nat, p: nat)
    ensures n % 128 * p + n / 128 * (128 * p) == n * p
  {
    assert n == n / 128 * 128 + n % 128;
    assert (n / 128 * 128) * p == n / 128 * (128 * p);
    assert (n / 128 * 128 + n % 128) * p == (n / 128 * 128) * p + n % 128 * p;
  }

  /** Reading back what was written, at any offset of any buffer. */
  lemma {:induction false} GroupsRoundTrip(pre: Bytes, n: nat, post: Bytes, x: nat, k: nat)
    requires k < MAX_GROUPS && n < Pow128(MAX_GROUPS - k)
    ensures ReadGroups(pre + Varint(n) + post, |pre|, x, k) == Read(x + n * Pow128(k), |pre| + |Varint(n)|)
    decreases MAX_GROUPS - k
  {
    var buf := pre + Varint(n) + post;
    if n < 128 {
      assert buf[|pre|] == n;
    } else {
      Pow128Values();
      assert k + 1 < MAX_GROUPS;
      assert buf == (pre + [n % 128 + 128]) + Varint(n / 128) + post;
      assert buf[|pre|] == n % 128 + 128;
      GroupsRoundTrip(pre + [n % 128 + 128], n / 128, post, x + n % 128 * Pow128(k), k + 1);
      GroupShift(n, Pow128(k));
    }
  }

  lemma {:induction false} VarintRoundTrip(pre: Bytes, n: nat, post: Bytes)
    requires n < 0x100_0000_0000_0000
    ensures ReadVarint(pre + Varint(n) + post, |pre|) == Read(n, |pre| + |Varint(n)|)
  {
    Pow128Values();
    FastPathsAgree(pre + Varint(n) + post, |pre|);
    GroupsRoundTrip(pre, n, post, 0, 0);
  }

  /** The bytes `s` stand at `offset` of the buffer. */
  predicate At(buf: Bytes, offset: nat, s: Bytes) {
    offset + |s| <= |buf| && buf[offset..offset + |s|] == s
  }

  lemma {:induction false} AtSplits(buf: Bytes, offset: nat, a: Bytes, b: Bytes)
    requires At(buf, offset, a + b)
    ensures At(buf, offset, a) && At(buf, offset + |a|, b)
  {
    var all := buf[offset..offset + |a + b|];
    assert all[..|a|] == a && all[|a|..] == b;
  }

  lemma {:induction false} ReadsVarintAt(buf: Bytes, offset: nat, n: nat)
    requires At(buf, offset, Varint(n)) && n < 0x100_0000_0000_0000
    ensures ReadVarint(buf, offset) == Read(n, offset + |Varint(n)|)
  {
    var end := offset + |Varint(n)|;
    assert buf == buf[..offset] + Varint(n) + buf[end..];
    VarintRoundTrip(buf[..offset], n, buf[end..]);
  }

  lemma {:induction false} GroupsBounded(buf: Bytes, offset: nat, x: nat, k: nat)
    requires k < MAX_GROUPS && x < Pow128(k)
    ensures ReadGroups(buf, offset, x, k).value < Pow128(MAX_GROUPS)
    decreases MAX_GROUPS - k
  {
    Pow128Grows(k, MAX_GROUPS);
    if offset < |buf| {
      var g, p := buf[offset] % 128, Pow128(k);
      assert x + g * p < 128 * p by { assert g * p <= 127 * p; }
      Pow128Grows(k + 1, MAX_GROUPS);
      if k + 1 < MAX_GROUPS { GroupsBounded(buf, offset + 1, x + g * p, k + 1); }
    }
  }

  lemma {:induction false} Pow128Grows(i: nat, j: nat)
    requires i <= j
    ensures Pow128(i) <= Pow128(j)
  {
    if i < j { Pow128Grows(i, j - 1); }
  }

  /** The reader never returns more than 56 bits, so exactly the numbers below 2^56 survive. */
  lemma {:induction false} VarintRoundTripIff(n: nat)
    ensures ReadVarint(Varint(n), 0).value == n <==> n < 0x100_0000_0000_0000
  {
    Pow128Values();
    if n < 0x100_0000_0000_0000 {
      VarintRoundTrip([], n, []);
      assert [] + Varint(n) + [] == Varint(n);
    } else {
      FastPathsAgree(Varint(n), 0);
      GroupsBounded(Varint(n), 0, 0, 0);
    }
  }
}

/** The protobuf encoder and decoder of the native protocol. */
module NativeProtobuf {
  import opened Sequences
  import opened Varints

  /** A field value: a number, or a string as its bytes. */
  datatype Value = Number(n: int) | Text(s: Bytes)
  datatype Field = Field(number: int, value: Value)

  const WORD := 0x1_0000_0000
  const MAX_FIELD := 0x1000_0000        // 2^28
  const MAX_VALUE := 0x100_0000_0000_0000 // 2^56

  /** The signed 32-bit integer the runtime's bitwise operators see. */
  function Int32(x: int): (r: int)
    ensures -0x8000_0000 <= r < 0x8000_0000
    ensures (x - r) % WORD == 0
  {
    var low := x % WORD;
    if low < 0x8000_0000 then low else low - WORD
  }

  function Wire(v: Value): nat {
    if v.Number? then 0 else 2
  }

  /** `(field << 3) | wire`, written as an unsigned varint; a negative word is written as 0. */
  function Tag(number: int, wire: nat): nat {
    var tag := Int32(8 * number) + wire;
    if tag > 0 then tag else 0
  }

  function EncodeField(f: Field): Bytes {
    Varint(Tag(f.number, Wire(f.value))) +
    (match f.value
     case Number(n) => Varint(if n > 0 then n else 0)
     case Text(s) => Varint(|s|) + s)
  }

  function Encode(fs: seq<Field>): Bytes {
    if fs == [] then [] else EncodeField(fs[0]) + Encode(fs[1..])
  }

  method AppendBytes(s: Bytes, out: Bytes) returns (r: Bytes)
    ensures r == out + s
  {
    r := out;
    for j := 0 to |s|
      invariant r == out + s[..j]
    {
      r := r + [s[j]];
    }
  }

  method EncodeFieldTo(f: Field, out: Bytes) returns (r: Bytes)
    ensures r == out + EncodeField(f)
  {
    match f.value
    case Number(n) =>
      r := WriteVarint(Tag(f.number, 0), out);
      r := WriteVarint(n, r);
      Regroup(out, Varint(Tag(f.number, 0)), Varint(if n > 0 then n else 0));
    case Text(s) =>
      r := WriteVarint(Tag(f.number, 2), out);
      r := WriteVarint(|s|, r);
      r := AppendBytes(s, r);
      Regroup(out + Varint(Tag(f.number, 2)), Varint(|s|), s);
      Regroup(out, Varint(Tag(f.number, 2)), Varint(|s|) + s);
  }

  method EncodeProtobuf(fs: seq<Field>) returns (out: Bytes)
    ensures out == Encode(fs)
  {
    out := [];
    for i := 0 to |fs|
      invariant out + Encode(fs[i..]) == Encode(fs)
    {
      assert fs[i..][1..] == fs[i + 1..];
      Regroup(out, EncodeField(fs[i]), Encode(fs[i + 1..]));
      out := EncodeFieldTo(fs[i], out);
    }
  }

  /** The field number and wire type a tag stands for. */
  function FieldOf(tag: nat): (f: int)
    ensures -MAX_FIELD <= f < MAX_FIELD
  {
    Int32(tag) / 8
  }

  /** The map in which the last field with a number wins. */
  function LastWins(fs: seq<Field>, fields: map<int, Value>): map<int, Value>
    decreases |fs|
  {
    if fs == [] then fields else LastWins(fs[1..], fields[fs[0].number := fs[0].value])
  }

  datatype Progress = More(offset: nat, field: Field) | Done

  /** One round of the decoder; a truncated string or an unknown wire type ends the decoding. */
  function DecodeField(buf: Bytes, offset: nat): (r: Progress)
    requires offset < |buf|
    ensures r.More? ==> offset < r.offset <= |buf|
  {
    var tag := ReadVarint(buf, offset);
    var v := ReadVarint(buf, tag.offset);
    if tag.value % 8 == 0 then More(v.offset, Field(FieldOf(tag.value), Number(v.value)))
    else if tag.value % 8 == 2 then
      var end := v.offset + v.value;
      if end > |buf| then Done else More(end, Field(FieldOf(tag.value), Text(buf[v.offset..end])))
    else Done
  }

  /** The fields met from `offset` on, in order. */
  function FieldsFrom(buf: Bytes, offset: nat): seq<Field>
    decreases |buf| - offset
  {
    if offset >= |buf| then []
    else
      match DecodeField(buf, offset)
      case More(next, f) => [f] + FieldsFrom(buf, next)
      case Done => []
  }

  function Decode(buf: Bytes): map<int, Value> {
    LastWins(FieldsFrom(buf, 0), map[])
  }

  method DecodeProtobuf(buf: Bytes) returns (fields: map<int, Value>)
    ensures fields == Decode(buf)
  {
    fields := map[];
    var offset := 0;
    ghost var expected := Decode(buf);
    while offset < |buf|
      invariant expected == LastWins(FieldsFrom(buf, offset), fields)
      decreases |buf| - offset
    {
      ghost var r, before := DecodeField(buf, offset), fields;
      assert r.More? ==> FieldsFrom(buf, offset) == [r.field] + FieldsFrom(buf, r.offset);
      assert r.More? ==> ([r.field] + FieldsFrom(buf, r.offset))[1..] == FieldsFrom(buf, r.offset);
      var tag := ReadVarintAt(buf, offset);
      offset := tag.offset;
      var field, wire := FieldOf(tag.value), tag.value % 8;
      if wire == 0 {
        var v := ReadVarintAt(buf, offset);
        offset := v.offset;
        fields := fields[field := Number(v.value)];
      } else if wire == 2 {
        var size := ReadVarintAt(buf, offset);
        offset := size.offset;
        var end := offset + size.value;
        if end > |buf| { break; }
        fields := fields[field := Text(buf[offset..end])];
        offset := end;
      } else {
        break;
      }
      assert r.More? && offset == r.offset && fields == before[r.field.number := r.field.value];
    }
  }

  /** What survives the trip: a field number below 2^28 and a number, or a length, below 2^56. */
  predicate Encodable(f: Field) {
    && 0 <= f.number < MAX_FIELD
    && match f.value
       case Number(n) => 0 <= n < MAX_VALUE
       case Text(s) => |s| < MAX_VALUE
  }

  predicate AllEncodable(fs: seq<Field>) {
    fs == [] || (Encodable(fs[0]) && AllEncodable(fs[1..]))
  }

  lemma {:induction false} TagRoundTrip(number: nat, wire: nat)
    requires number < MAX_FIELD && wire < 8
    ensures Tag(number, wire) == 8 * number + wire < 0x8000_0000
    ensures FieldOf(Tag(number, wire)) == number && Tag(number, wire) % 8 == wire
  {}

  lemma {:induction false} ReadsTwo(buf: Bytes, offset: nat, a: nat, b: nat, rest: Bytes)
    requires a < MAX_VALUE && b < MAX_VALUE && At(buf, offset, Varint(a) + (Varint(b) + rest))
    ensures offset < |buf| && ReadVarint(buf, offset) == Read(a, offset + |Varint(a)|)
    ensures ReadVarint(buf, offset + |Varint(a)|) == Read(b, offset + |Varint(a)| + |Varint(b)|)
    ensures At(buf, offset + |Varint(a)| + |Varint(b)|, rest)
  {
    AtSplits(buf, offset, Varint(a), Varint(b) + rest);
    AtSplits(buf, offset + |Varint(a)|, Varint(b), rest);
    ReadsVarintAt(buf, offset, a);
    ReadsVarintAt(buf, offset + |Varint(a)|, b);
  }

  lemma {:induction false} DecodesNumber(buf: Bytes, offset: nat, tag: nat, n: nat)
    requires tag < MAX_VALUE && tag % 8 == 0 && n < MAX_VALUE && At(buf, offset, Varint(tag) + (Varint(n) + []))
    ensures offset < |buf|
    ensures DecodeField(buf, offset) == More(offset + |Varint(tag)| + |Varint(n)|, Field(FieldOf(tag), Number(n)))
  {
    ReadsTwo(buf, offset, tag, n, []);
  }

  lemma {:induction false} TextRound(buf: Bytes, offset: nat, tag: Read, len: Read, s: Bytes)
    requires offset < |buf| && ReadVarint(buf, offset) == tag && ReadVarint(buf, tag.offset) == len
    requires tag.value % 8 == 2 && len.value == |s| && At(buf, len.offset, s)
    ensures DecodeField(buf, offset) == More(len.offset + |s|, Field(FieldOf(tag.value), Text(s)))
  {}

  lemma {:induction false} DecodesText(buf: Bytes, offset: nat, tag: nat, s: Bytes)
    requires tag < MAX_VALUE && tag % 8 == 2 && |s| < MAX_VALUE && At(buf, offset, Varint(tag) + (Varint(|s|) + s))
    ensures offset < |buf|
    ensures DecodeField(buf, offset)
         == More(offset + |Varint(tag)| + |Varint(|s|)| + |s|, Field(FieldOf(tag), Text(s)))
  {
    ReadsTwo(buf, offset, tag, |s|, s);
    var start := offset + |Varint(tag)| + |Varint(|s|)|;
    TextRound(buf, offset, Read(tag, offset + |Varint(tag)|), Read(|s|, start), s);
  }

  lemma {:induction false} DecodesOneField(buf: Bytes, offset: nat, f: Field)
    requires Encodable(f) && At(buf, offset, EncodeField(f))
    ensures offset < |buf| && DecodeField(buf, offset) == More(offset + |EncodeField(f)|, f)
  {
    var tag := Tag(f.number, Wire(f.value));
    TagRoundTrip(f.number, Wire(f.value));
    match f.value
    case Number(n) =>
      assert Varint(n) + [] == Varint(n);
      DecodesNumber(buf, offset, tag, n);
    case Text(s) => DecodesText(buf, offset, tag, s);
  }

  lemma {:induction false} FirstField(buf: Bytes, offset: nat, next: nat, f: Field)
    requires offset < |buf| && DecodeField(buf, offset) == More(next, f)
    ensures FieldsFrom(buf, offset) == [f] + FieldsFrom(buf, next)
  {}

  lemma {:induction false} DecodesFields(buf: Bytes, offset: nat, fs: seq<Field>)
    requires AllEncodable(fs) && At(buf, offset, Encode(fs)) && offset + |Encode(fs)| == |buf|
    ensures FieldsFrom(buf, offset) == fs
    decreases |fs|
  {
    if fs != [] {
      var f, rest := fs[0], fs[1..];
      assert fs == [f] + rest;
      var next := offset + |EncodeField(f)|;
      AtSplits(buf, offset, EncodeField(f), Encode(rest));
      DecodesOneField(buf, offset, f);
      DecodesFields(buf, next, rest);
      FirstField(buf, offset, next, f);
    }
  }

  /** Decoding an encoding gives back its list of fields, and so their last-wins map. */
  lemma {:induction false} DecodeEncode(fs: seq<Field>)
    requires AllEncodable(fs)
    ensures FieldsFrom(Encode(fs), 0) == fs && Decode(Encode(fs)) == LastWins(fs, map[])
  {
    DecodesFields(Encode(fs), 0, fs);
  }

  lemma {:induction false} ReadIsSmall(buf: Bytes, offset: nat)
    ensures ReadVarint(buf, offset).value < MAX_VALUE
  {
    Pow128Values();
    FastPathsAgree(buf, offset);
    GroupsBounded(buf, offset, 0, 0);
  }

  predicate Small(number: int, v: Value) {
    number < MAX_FIELD && (v.Number? ==> 0 <= v.n < MAX_VALUE)
  }

  lemma {:induction false} FieldIsSmall(buf: Bytes, offset: nat)
    requires offset < |buf|
    ensures var r := DecodeField(buf, offset); r.More? ==> Small(r.field.number, r.field.value)
  {
    ReadIsSmall(buf, ReadVarint(buf, offset).offset);
  }

  ghost predicate AllSmall(fields: map<int, Value>) {
    forall k :: k in fields ==> Small(k, fields[k])
  }

  /** Whatever the bytes, the decoder yields only field numbers below 2^28 and numbers below 2^56. */
  lemma {:induction false} DecodedIsSmall(buf: Bytes, offset: nat, fields: map<int, Value>)
    requires AllSmall(fields)
    ensures AllSmall(LastWins(FieldsFrom(buf, offset), fields))
    decreases |buf| - offset
  {
    if offset < |buf| {
      FieldIsSmall(buf, offset);
      var r := DecodeField(buf, offset);
      if r.More? {
        DecodedIsSmall(buf, r.offset, fields[r.field.number := r.field.value]);
        assert FieldsFrom(buf, offset)[1..] == FieldsFrom(buf, r.offset);
      }
    }
  }

  /** Exactly the encodable numeric fields survive on their own. */
  lemma {:induction false} NumberSurvivesIff(number: nat, n: int)
    ensures Decode(Encode([Field(number, Number(n))])) == map[number := Number(n)]
      <==> number < MAX_FIELD && 0 <= n < MAX_VALUE
  {
    var f := Field(number, Number(n));
    if Encodable(f) {
      DecodeEncode([f]);
      assert LastWins([f], map[]) == LastWins([], map[][number := Number(n)]);
    } else {
      DecodedIsSmall(Encode([f]), 0, map[]);
      assert AllSmall(map[number := Number(n)]) ==> Encodable(f) by {
        assert number in map[number := Number(n)];
      }
    }
  }
}
