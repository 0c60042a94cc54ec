/** The second protobuf implementation, a cursor over 32-bit varints, and its agreement with the first. */
module ProtobufReader {
  import opened Varints
  import opened NativeProtobuf
  import opened Wrappers

  /** Reading past the end yields an undefined byte, which the bit operators treat as 0. */
  function ByteAt(buf: Bytes, i: nat): (b: nat)
    ensures b < 256 && (b >= 128 ==> i < |buf|)
  {
    if i < |buf| then buf[i] else 0
  }

  /** Bits shifted into a 32-bit accumulator; the groups are disjoint, so the union of bits is the sum. */
  function Accumulate(x: nat, b: nat, k: nat): (y: nat)
    ensures y < WORD
  {
    (x + b % 128 * Pow128(k)) % WORD
  }

  /** `readVarint`: at most five groups. */
  function ShortGroups(buf: Bytes, pos: nat, x: nat, k: nat): (r: Read)
    ensures r.offset > pos
    decreases |buf| - pos
  {
    var b := ByteAt(buf, pos);
    var y := Accumulate(x, b, k);
    if b >= 128 && k + 1 < 5 then ShortGroups(buf, pos + 1, y, k + 1) else Read(y, pos + 1)
  }

  /** `readInt64`: as many groups as there are, of which those past bit 32 are ignored. */
  function LongGroups(buf: Bytes, pos: nat, x: nat, k: nat): (r: Read)
    ensures r.offset > pos
    decreases |buf| - pos
  {
    var b := ByteAt(buf, pos);
    var y := if k < 5 then Accumulate(x, b, k) else x;
    if b >= 128 then LongGroups(buf, pos + 1, y, k + 1) else Read(y, pos + 1)
  }

  function Short(buf: Bytes, pos: nat): Read { ShortGroups(buf, pos, 0, 0) }

  function Long(buf: Bytes, pos: nat): Read { LongGroups(buf, pos, 0, 0) }

  // ---------------------------------------------------------------- the `ed` event

  datatype End = End(roundId: nat, maxRate: nat, hash: Bytes)

  const NO_END := End(0, 0, [])

  datatype Round = Ahead(pos: nat, end: End) | Unknown

  /** One round of `decodeEnd`: a tag and its field, or the exception for an unknown wire type. */
  function EndField(buf: Bytes, pos: nat, e: End): (r: Round)
    ensures r.Ahead? ==> r.pos > pos
  {
    var tag := Short(buf, pos);
    var field, wire := tag.value / 8, tag.value % 8;
    if field == 1 then var v := Long(buf, tag.offset); Ahead(v.offset, e.(roundId := v.value))
    else if field == 6 then var v := Short(buf, tag.offset); Ahead(v.offset, e.(maxRate := v.value))
    else if field == 7 then
      var len := Short(buf, tag.offset);
      Ahead(len.offset + len.value, e.(hash := Clip(buf, len.offset, len.offset + len.value)))
    else if wire == 0 then Ahead(Short(buf, tag.offset).offset, e)
    else if wire == 1 then Ahead(tag.offset + 8, e)
    else if wire == 2 then var len := Short(buf, tag.offset); Ahead(len.offset + len.value, e)
    else if wire == 5 then Ahead(tag.offset + 4, e)
    else Unknown
  }

  function EndFrom(buf: Bytes, pos: nat, e: End): Option<End>
    decreases |buf| - pos
  {
    if pos >= |buf| then Some(e)
    else
      match EndField(buf, pos, e)
      case Ahead(next, more) => EndFrom(buf, next, more)
      case Unknown => None
  }

  class Reader {
    const buf: Bytes
    var pos: nat

    constructor (buf: Bytes)
      ensures this.buf == buf && pos == 0
    {
      this.buf, pos := buf, 0;
    }

    method ReadVarint() returns (value: nat)
      modifies this
      ensures Read(value, pos) == Short(buf, old(pos))
    {
      ghost var expected := Short(buf, pos);
      value := 0;
      var k := 0;
      while true
        invariant k < 5 && expected == ShortGroups(buf, pos, value, k)
        decreases 5 - k
      {
        var b := ByteAt(buf, pos);
        pos := pos + 1;
        value := Accumulate(value, b, k);
        if b < 128 || k + 1 >= 5 { return; }
        k := k + 1;
      }
    }

    method ReadInt64() returns (value: nat)
      modifies this
      ensures Read(value, pos) == Long(buf, old(pos))
    {
      ghost var expected := Long(buf, pos);
      value := 0;
      var k := 0;
      while true
        invariant expected == LongGroups(buf, pos, value, k)
        decreases |buf| - pos
      {
        var b := ByteAt(buf, pos);
        pos := pos + 1;
        if k < 5 { value := Accumulate(value, b, k); }
        if b < 128 { return; }
        k := k + 1;
      }
    }

    /** `None` at the end of the buffer. */
    method ReadTag() returns (tag: Option<(nat, nat)>)
      modifies this
      ensures old(pos) >= |buf| ==> tag == None && pos == old(pos)
      ensures old(pos) < |buf| ==>
        var t := Short(buf, old(pos)); tag == Some((t.value / 8, t.value % 8)) && pos == t.offset
    {
      if pos >= |buf| { return None; }
      var t := ReadVarint();
      return Some((t / 8, t % 8));
    }

    method ReadString() returns (s: Bytes)
      modifies this
      ensures var len := Short(buf, old(pos));
        s == Clip(buf, len.offset, len.offset + len.value) && pos == len.offset + len.value
    {
      var len := ReadVarint();
      s := Clip(buf, pos, pos + len);
      pos := pos + len;
    }

    /** False is the exception for a wire type that cannot be skipped. */
    method SkipField(wire: nat) returns (ok: bool)
      modifies this
      ensures ok <==> wire in {0, 1, 2, 5}
      ensures wire == 0 ==> pos == Short(buf, old(pos)).offset
      ensures wire == 1 ==> pos == old(pos) + 8
      ensures wire == 2 ==> var len := Short(buf, old(pos)); pos == len.offset + len.value
      ensures wire == 5 ==> pos == old(pos) + 4
    {
      if wire == 0 {
        var _ := ReadVarint();
      } else if wire == 1 {
        pos := pos + 8;
      } else if wire == 2 {
        var len := ReadVarint();
        pos := pos + len;
      } else if wire == 5 {
        pos := pos + 4;
      } else {
        return false;
      }
      return true;
    }
  }

  method DecodeEnd(buf: Bytes) returns (r: Option<End>)
    ensures r == EndFrom(buf, 0, NO_END)
  {
    ghost var expected := EndFrom(buf, 0, NO_END);
    var reader := new Reader(buf);
    var e := NO_END;
    while reader.pos < |buf|
      invariant reader.buf == buf && expected == EndFrom(buf, reader.pos, e)
      decreases |buf| - reader.pos
    {
      ghost var round := EndField(buf, reader.pos, e);
      var tag := reader.ReadTag();
      var field, wire := tag.value.0, tag.value.1;
      if field == 1 {
        var v := reader.ReadInt64();
        e := e.(roundId := v);
      } else if field == 6 {
        var v := reader.ReadVarint();
        e := e.(maxRate := v);
      } else if field == 7 {
        var s := reader.ReadString();
        e := e.(hash := s);
      } else {
        var ok := reader.SkipField(wire);
        if !ok { return None; }
      }
      assert round == Ahead(reader.pos, e);
    }
    return Some(e);
  }

  // ---------------------------------------------------------------- reading back a written varint

  lemma {:induction false} AddModulo(a: nat, b: nat)
    ensures (a % WORD + b) % WORD == (a + b) % WORD
  {}

  lemma {:induction false} VarintHead(buf: Bytes, pos: nat, n: nat)
    requires At(buf, pos, Varint(n))
    ensures n < 128 ==> ByteAt(buf, pos) == n && |Varint(n)| == 1
    ensures n >= 128 ==> ByteAt(buf, pos) == n % 128 + 128 && At(buf, pos + 1, Varint(n / 128))
    ensures n >= 128 ==> |Varint(n)| == 1 + |Varint(n / 128)|
  {
    assert buf[pos] == buf[pos..pos + |Varint(n)|][0];
    if n >= 128 { AtSplits(buf, pos, [n % 128 + 128], Varint(n / 128)); }
  }

  lemma {:induction false} GroupAdded(x: nat, n: nat, k: nat)
    ensures (Accumulate(x, n % 128, k) + n / 128 * Pow128(k + 1)) % WORD == (x + n * Pow128(k)) % WORD
  {
    GroupShift(n, Pow128(k));
    assert (n % 128) % 128 == n % 128;
    AddModulo(x + n % 128 * Pow128(k), n / 128 * Pow128(k + 1));
  }

  lemma {:induction false} ShortRoundTrip(buf: Bytes, pos: nat, n: nat, x: nat, k: nat)
    requires At(buf, pos, Varint(n)) && k < 5 && n < Pow128(5 - k)
    ensures ShortGroups(buf, pos, x, k) == Read((x + n * Pow128(k)) % WORD, pos + |Varint(n)|)
    decreases 5 - k
  {
    VarintHead(buf, pos, n);
    if n >= 128 {
      Pow128Values();
      assert k + 1 < 5;
      var y := Accumulate(x, n % 128, k);
      assert Accumulate(x, n % 128 + 128, k) == y;
      ShortRoundTrip(buf, pos + 1, n / 128, y, k + 1);
      GroupAdded(x, n, k);
    }
  }

  lemma {:induction false} HighGroupsVanish(k: nat)
    requires k >= 5
    ensures Pow128(k) % WORD == 0
  {
    Pow128Values();
    if k > 5 { HighGroupsVanish(k - 1); }
  }

  lemma {:induction false} MultipleVanishes(x: nat, n: nat, p: nat)
    requires x < WORD && p % WORD == 0
    ensures (x + n * p) % WORD == x
  {
    var q := p / WORD;
    assert n * p == (n * q) * WORD by { assert p == q * WORD; }
    assert (x + (n * q) * WORD) % WORD == x;
  }

  lemma {:induction false} LongIgnores(buf: Bytes, pos: nat, n: nat, x: nat, k: nat)
    requires At(buf, pos, Varint(n)) && k >= 5
    ensures LongGroups(buf, pos, x, k) == Read(x, pos + |Varint(n)|)
    decreases n
  {
    VarintHead(buf, pos, n);
    if n >= 128 { LongIgnores(buf, pos + 1, n / 128, x, k + 1); }
  }

  lemma {:induction false} OneGroup(buf: Bytes, pos: nat, n: nat, x: nat, k: nat, y: nat)
    requires k < 5 && 128 <= n && pos < |buf| && buf[pos] as int == n % 128 + 128 && y == Accumulate(x, n % 128, k)
    ensures LongGroups(buf, pos, x, k) == LongGroups(buf, pos + 1, y, k + 1)
  {
    assert Accumulate(x, n % 128 + 128, k) == y;
  }

  lemma {:induction false} LongRoundTrip(buf: Bytes, pos: nat, n: nat, x: nat, k: nat)
    requires At(buf, pos, Varint(n)) && x < WORD
    ensures LongGroups(buf, pos, x, k) == Read((x + n * Pow128(k)) % WORD, pos + |Varint(n)|)
    decreases n
  {
    if k >= 5 {
      LongIgnores(buf, pos, n, x, k);
      HighGroupsVanish(k);
      MultipleVanishes(x, n, Pow128(k));
    } else {
      VarintHead(buf, pos, n);
      if n >= 128 {
        var y := Accumulate(x, n % 128, k);
        LongRoundTrip(buf, pos + 1, n / 128, y, k + 1);
        GroupAdded(x, n, k);
        OneGroup(buf, pos, n, x, k, y);
      }
    }
  }

  /** A written number is read back modulo 2^32; `readVarint` needs it to fit in 35 bits. */
  lemma {:induction false} ReadsModuloWord(buf: Bytes, pos: nat, n: nat)
    requires At(buf, pos, Varint(n))
    ensures Long(buf, pos) == Read(n % WORD, pos + |Varint(n)|)
    ensures n < 8 * WORD ==> Short(buf, pos) == Read(n % WORD, pos + |Varint(n)|)
  {
    LongRoundTrip(buf, pos, n, 0, 0);
    Pow128Values();
    if n < 8 * WORD { ShortRoundTrip(buf, pos, n, 0, 0); }
  }

  // ---------------------------------------------------------------- agreement of the two decoders

  /** A field of an `ed` message: round id and hundredths are numbers, the hash is a string, all varints fit in 32 bits. */
  predicate EndTyped(f: Field) {
    && 0 <= f.number < MAX_FIELD
    && (match f.value
        case Number(n) => 0 <= n < WORD && f.number != 7
        case Text(s) => |s| < WORD && f.number != 1 && f.number != 6)
  }

  predicate AllEndTyped(fs: seq<Field>) {
    fs == [] || (EndTyped(fs[0]) && AllEndTyped(fs[1..]))
  }

  function Stored(e: End, f: Field): End
    requires EndTyped(f)
  {
    match f.value
    case Number(n) => if f.number == 1 then e.(roundId := n) else if f.number == 6 then e.(maxRate := n) else e
    case Text(s) => if f.number == 7 then e.(hash := s) else e
  }

  /** The reader's two varints at the start of a field, the tag and what follows it. */
  lemma {:induction false} ReaderReadsTwo(buf: Bytes, pos: nat, a: nat, b: nat, rest: Bytes)
    requires a < WORD && b < WORD && At(buf, pos, Varint(a) + (Varint(b) + rest))
    ensures pos < |buf| && Short(buf, pos) == Read(a, pos + |Varint(a)|)
    ensures var next := pos + |Varint(a)|;
      Short(buf, next) == Long(buf, next) == Read(b, next + |Varint(b)|)
    ensures At(buf, pos + |Varint(a)| + |Varint(b)|, rest)
  {
    AtSplits(buf, pos, Varint(a), Varint(b) + rest);
    AtSplits(buf, pos + |Varint(a)|, Varint(b), rest);
    ReadsModuloWord(buf, pos, a);
    ReadsModuloWord(buf, pos + |Varint(a)|, b);
  }

  lemma {:induction false} ReaderReadsNumber(buf: Bytes, pos: nat, number: nat, n: nat, e: End)
    requires number < MAX_FIELD && n < WORD && number != 7
    requires At(buf, pos, Varint(8 * number) + (Varint(n) + []))
    ensures pos < |buf|
    ensures EndField(buf, pos, e)
         == Ahead(pos + |Varint(8 * number)| + |Varint(n)|, Stored(e, Field(number, Number(n))))
  {
    ReaderReadsTwo(buf, pos, 8 * number, n, []);
  }

  lemma {:induction false} TextRound(buf: Bytes, pos: nat, tag: Read, len: Read, s: Bytes, e: End)
    requires Short(buf, pos) == tag && Short(buf, tag.offset) == len && len.value == |s| && At(buf, len.offset, s)
    requires tag.value % 8 == 2 && tag.value / 8 != 1 && tag.value / 8 != 6
    ensures EndField(buf, pos, e) == Ahead(len.offset + |s|, if tag.value / 8 == 7 then e.(hash := s) else e)
  {
  }

  lemma {:induction false} ReaderReadsText(buf: Bytes, pos: nat, tag: nat, s: Bytes, e: End)
    requires tag < WORD && tag % 8 == 2 && |s| < WORD && tag / 8 != 1 && tag / 8 != 6
    requires At(buf, pos, Varint(tag) + (Varint(|s|) + s))
    ensures pos < |buf|
    ensures EndField(buf, pos, e) == Ahead(pos + |Varint(tag)| + |Varint(|s|)| + |s|, if tag / 8 == 7 then e.(hash := s) else e)
  {
    ReaderReadsTwo(buf, pos, tag, |s|, s);
    var start := pos + |Varint(tag)| + |Varint(|s|)|;
    TextRound(buf, pos, Read(tag, pos + |Varint(tag)|), Read(|s|, start), s, e);
  }

  lemma {:induction false} ReaderReadsField(buf: Bytes, pos: nat, f: Field, e: End)
    requires EndTyped(f) && At(buf, pos, EncodeField(f))
    ensures pos < |buf| && EndField(buf, pos, e) == Ahead(pos + |EncodeField(f)|, Stored(e, f))
  {
    TagRoundTrip(f.number, Wire(f.value));
    match f.value
    case Number(n) =>
      assert Varint(n) + [] == Varint(n);
      ReaderReadsNumber(buf, pos, f.number, n, e);
    case Text(s) => ReaderReadsText(buf, pos, 8 * f.number + 2, s, e);
  }

  function AllStored(e: End, fs: seq<Field>): End
    requires AllEndTyped(fs)
    decreases |fs|
  {
    if fs == [] then e else AllStored(Stored(e, fs[0]), fs[1..])
  }

  lemma {:induction false} FirstRound(buf: Bytes, pos: nat, e: End, next: nat, more: End)
    requires pos < |buf| && EndField(buf, pos, e) == Ahead(next, more)
    ensures EndFrom(buf, pos, e) == EndFrom(buf, next, more)
  {}

  lemma {:induction false} ReaderReadsFields(buf: Bytes, pos: nat, fs: seq<Field>, e: End)
    requires AllEndTyped(fs) && At(buf, pos, Encode(fs)) && pos + |Encode(fs)| == |buf|
    ensures EndFrom(buf, pos, e) == Some(AllStored(e, fs))
    decreases |fs|
  {
    if fs != [] {
      var f, rest := fs[0], fs[1..];
      var next, more := pos + |EncodeField(f)|, Stored(e, f);
      AtSplits(buf, pos, EncodeField(f), Encode(rest));
      ReaderReadsField(buf, pos, f, e);
      ReaderReadsFields(buf, next, rest, more);
      FirstRound(buf, pos, e, next, more);
    }
  }

  // ---------------------------------------------------------------- the native side of the comparison

  /** What `fieldsToPayload` makes of the fields of an `ed` event. */
  datatype Payload = Payload(gameId: Option<Value>, multiplier: Option<int>, hash: Option<Bytes>)

  function FieldsToPayload(fields: map<int, Value>): Payload {
    Payload(if 1 in fields then Some(fields[1]) else None,
            if 6 in fields && fields[6].Number? then Some(fields[6].n) else None,
            if 7 in fields && fields[7].Text? then Some(fields[7].s) else None)
  }

  /** The two results say the same; the reader has 0 and the empty string where the payload has nothing. */
  predicate Agree(e: End, p: Payload) {
    && (match p.gameId case Some(id) => id == Number(e.roundId) case None => e.roundId == 0)
    && (match p.multiplier case Some(m) => m == e.maxRate case None => e.maxRate == 0)
    && (match p.hash case Some(h) => h == e.hash case None => e.hash == [])
  }

  lemma {:induction false} StoredAgrees(e: End, fields: map<int, Value>, fs: seq<Field>)
    requires AllEndTyped(fs) && Agree(e, FieldsToPayload(fields))
    ensures Agree(AllStored(e, fs), FieldsToPayload(LastWins(fs, fields)))
    decreases |fs|
  {
    if fs != [] {
      StoredAgrees(Stored(e, fs[0]), fields[fs[0].number := fs[0].value], fs[1..]);
    }
  }

  lemma {:induction false} EndTypedIsEncodable(fs: seq<Field>)
    requires AllEndTyped(fs)
    ensures AllEncodable(fs)
  {
    if fs != [] { EndTypedIsEncodable(fs[1..]); }
  }

  /** On every well-typed `ed` payload both decoders recover the same round id, hundredths and hash. */
  lemma {:induction false} DecodersAgree(fs: seq<Field>)
    requires AllEndTyped(fs)
    ensures var e := EndFrom(Encode(fs), 0, NO_END);
      e.Some? && Agree(e.value, FieldsToPayload(Decode(Encode(fs))))
  {
    ReaderReadsFields(Encode(fs), 0, fs, NO_END);
    EndTypedIsEncodable(fs);
    DecodeEncode(fs);
    StoredAgrees(NO_END, map[], fs);
  }

  /** A payload whose last round id is a string is outside the agreement: no answer of the reader is that string. */
  lemma {:induction false} TextualRoundIdNeverAgrees(fs: seq<Field>, e: End)
    requires AllEncodable(fs) && 1 in LastWins(fs, map[]) && LastWins(fs, map[])[1].Text?
    ensures !Agree(e, FieldsToPayload(Decode(Encode(fs))))
  {
    DecodeEncode(fs);
  }

  lemma {:induction false} ReaderReadsRoundId(buf: Bytes, n: nat)
    requires buf == Varint(8) + Varint(n)
    ensures EndFrom(buf, 0, NO_END) == Some(End(n % WORD, 0, []))
  {
    AtSplits(buf, 0, Varint(8), Varint(n));
    ReadsModuloWord(buf, 0, 8);
    ReadsModuloWord(buf, |Varint(8)|, n);
    assert EndField(buf, 0, NO_END) == Ahead(|buf|, End(n % WORD, 0, []));
  }

  lemma {:induction false} OneFieldBytes(f: Field, n: nat)
    requires f == Field(1, Number(n))
    ensures Encode([f]) == Varint(8) + Varint(n)
  {
    var fs := [f];
    assert fs[1..] == [];
    TagRoundTrip(1, 0);
    assert Encode(fs) == EncodeField(f) + Encode(fs[1..]);
    assert EncodeField(f) == Varint(8) + Varint(n);
  }

  /** For the round id alone the agreement ends exactly at 2^32: from there on the reader keeps the low bits only. */
  lemma {:induction false} RoundIdAgreesIff(n: nat)
    requires n < MAX_VALUE
    ensures var buf := Encode([Field(1, Number(n))]);
      var e := EndFrom(buf, 0, NO_END);
      && e == Some(End(n % WORD, 0, []))
      && (Agree(e.value, FieldsToPayload(Decode(buf))) <==> n < WORD)
  {
    var f := Field(1, Number(n));
    var buf := Encode([f]);
    OneFieldBytes(f, n);
    ReaderReadsRoundId(buf, n);
    NumberSurvivesIff(1, n);
  }
}
