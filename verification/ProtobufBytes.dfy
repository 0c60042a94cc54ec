/** What the second protobuf reader makes of arbitrary bytes, and of fields it does not know. */
module ProtobufBytes {
  import opened Varints
  import opened NativeProtobuf
  import opened ProtobufReader
  import opened Wrappers

  // ---------------------------------------------------------------- varints of any length

  /** How many bytes from `pos` on announce a further one. */
  function Continued(buf: Bytes, pos: nat): nat
    decreases |buf| - pos
  {
    if pos < |buf| && buf[pos] >= 128 then 1 + Continued(buf, pos + 1) else 0
  }

  /** The low seven bits of `n` bytes from `pos` on, the first one lowest, in groups from the `k`-th on; missing bytes are 0. */
  function Bits(buf: Bytes, pos: nat, n: nat, k: nat): nat
    decreases n
  {
    if n == 0 then 0
    else (if pos < |buf| then buf[pos] % 128 else 0) * Pow128(k) + Bits(buf, pos + 1, n - 1, k + 1)
  }

  lemma {:induction false} AddsGroup(x: nat, b: nat, k: nat, rest: nat)
    ensures (Accumulate(x, b, k) + rest) % WORD == (x + (b % 128 * Pow128(k) + rest)) % WORD
  {
    AddModulo(x + b % 128 * Pow128(k), rest);
  }

  lemma {:induction false} ShortReads(buf: Bytes, pos: nat, x: nat, k: nat)
    requires k < 5
    ensures var n := if Continued(buf, pos) + 1 < 5 - k then Continued(buf, pos) + 1 else 5 - k;
      ShortGroups(buf, pos, x, k) == Read((x + Bits(buf, pos, n, k)) % WORD, pos + n)
    decreases 5 - k
  {
    var b := ByteAt(buf, pos);
    var y := Accumulate(x, b, k);
    if b >= 128 && k < 4 {
      ShortReads(buf, pos + 1, y, k + 1);
      var n := if Continued(buf, pos) + 1 < 5 - k then Continued(buf, pos) + 1 else 5 - k;
      AddsGroup(x, b, k, Bits(buf, pos + 1, n - 1, k + 1));
    } else {
      assert Bits(buf, pos + 1, 0, k + 1) == 0;
      assert Bits(buf, pos, 1, k) == b % 128 * Pow128(k);
    }
  }

  lemma {:induction false} HighBitsVanish(buf: Bytes, pos: nat, n: nat, k: nat, x: nat)
    requires k >= 5 && x < WORD
    ensures (x + Bits(buf, pos, n, k)) % WORD == x
    decreases n
  {
    if n > 0 {
      var g, rest := if pos < |buf| then buf[pos] % 128 else 0, Bits(buf, pos + 1, n - 1, k + 1);
      HighBitsVanish(buf, pos + 1, n - 1, k + 1, x);
      HighGroupsVanish(k);
      MultipleVanishes(x, g, Pow128(k));
      OneMoreVanishes(x, rest, g * Pow128(k));
    }
  }

  lemma {:induction false} OneMoreVanishes(x: nat, rest: nat, group: nat)
    requires (x + rest) % WORD == x && (x + group) % WORD == x
    ensures (x + (group + rest)) % WORD == x
  {
    AddModulo(x + rest, group);
  }

  lemma {:induction false} LongReads(buf: Bytes, pos: nat, x: nat, k: nat)
    requires x < WORD
    ensures var n := Continued(buf, pos) + 1;
      LongGroups(buf, pos, x, k) == Read((x + Bits(buf, pos, n, k)) % WORD, pos + n)
    decreases |buf| - pos
  {
    var b, n := ByteAt(buf, pos), Continued(buf, pos) + 1;
    var y := if k < 5 then Accumulate(x, b, k) else x;
    if k >= 5 { HighBitsVanish(buf, pos, n, k, x); HighBitsVanish(buf, pos + 1, n - 1, k + 1, x); }
    if b >= 128 {
      LongReads(buf, pos + 1, y, k + 1);
      if k < 5 { AddsGroup(x, b, k, Bits(buf, pos + 1, n - 1, k + 1)); }
    } else {
      assert Bits(buf, pos + 1, 0, k + 1) == 0;
      assert Bits(buf, pos, 1, k) == b % 128 * Pow128(k);
    }
  }

  /** Whatever the bytes, complete or not: `readVarint` takes the bytes up to the first without a continuation bit, but five
      at most, `readInt64` takes all of them, and both answer with their bits modulo 2^32. */
  lemma {:induction false} AnyBytesAreRead(buf: Bytes, pos: nat)
    ensures var n := Continued(buf, pos) + 1;
      var m := if n < 5 then n else 5;
      && Short(buf, pos) == Read(Bits(buf, pos, m, 0) % WORD, pos + m)
      && Long(buf, pos) == Read(Bits(buf, pos, n, 0) % WORD, pos + n)
  {
    ShortReads(buf, pos, 0, 0);
    LongReads(buf, pos, 0, 0);
  }

  // ---------------------------------------------------------------- fields the decoder does not know

  /** A field with another number: what follows its tag. */
  datatype Foreign = Foreign(number: nat, wire: nat, body: Bytes)

  /** The bodies of the four wire types of the protobuf encoding that can be skipped. */
  ghost predicate IsBody(wire: nat, body: Bytes) {
    match wire
    case 0 => exists n :: 0 <= n < 8 * WORD && body == Varint(n)
    case 1 => |body| == 8
    case 2 => exists s: Bytes :: |s| < WORD && body == Varint(|s|) + s
    case 5 => |body| == 4
    case _ => false
  }

  predicate OtherNumber(number: nat) {
    number != 1 && number != 6 && number != 7 && number < MAX_FIELD
  }

  ghost predicate IsForeign(u: Foreign) {
    OtherNumber(u.number) && IsBody(u.wire, u.body)
  }

  function ForeignBytes(u: Foreign): Bytes { Varint(8 * u.number + u.wire) + u.body }

  lemma {:induction false} TagIsRead(buf: Bytes, pos: nat, number: nat, wire: nat)
    requires number < MAX_FIELD && wire < 8 && At(buf, pos, Varint(8 * number + wire))
    ensures pos < |buf|
    ensures Short(buf, pos) == Read(8 * number + wire, pos + |Varint(8 * number + wire)|)
  {
    ReadsModuloWord(buf, pos, 8 * number + wire);
  }

  /** What a round does with a field the decoder does not know. */
  lemma {:induction false} ForeignRound(buf: Bytes, pos: nat, number: nat, wire: nat, e: End)
    requires OtherNumber(number) && wire < 8 && Short(buf, pos).value == 8 * number + wire
    ensures var next := Short(buf, pos).offset;
      EndField(buf, pos, e) == match wire
        case 0 => Ahead(Short(buf, next).offset, e)
        case 1 => Ahead(next + 8, e)
        case 2 => var len := Short(buf, next); Ahead(len.offset + len.value, e)
        case 5 => Ahead(next + 4, e)
        case _ => Unknown
  {}

  lemma {:induction false} MeasuredIsRead(buf: Bytes, pos: nat, s: Bytes)
    requires |s| < WORD && At(buf, pos, Varint(|s|) + s)
    ensures Short(buf, pos) == Read(|s|, pos + |Varint(|s|)|)
  {
    AtSplits(buf, pos, Varint(|s|), s);
    ReadsModuloWord(buf, pos, |s|);
  }

  /** Where the body of a field ends. */
  lemma {:induction false} BodyIsRead(buf: Bytes, pos: nat, wire: nat, body: Bytes)
    requires IsBody(wire, body) && At(buf, pos, body)
    ensures wire in {0, 1, 2, 5}
    ensures wire == 0 ==> Short(buf, pos).offset == pos + |body|
    ensures wire == 1 ==> |body| == 8
    ensures wire == 2 ==> Short(buf, pos).offset + Short(buf, pos).value == pos + |body|
    ensures wire == 5 ==> |body| == 4
  {
    if wire == 0 {
      var n :| 0 <= n < 8 * WORD && body == Varint(n);
      ReadsModuloWord(buf, pos, n);
    } else if wire == 2 {
      var s: Bytes :| |s| < WORD && body == Varint(|s|) + s;
      MeasuredIsRead(buf, pos, s);
    }
  }

  lemma {:induction false} RoundSkipsBody(buf: Bytes, pos: nat, next: nat, u: Foreign, e: End)
    requires IsForeign(u) && u.wire < 8 && Short(buf, pos) == Read(8 * u.number + u.wire, next) && At(buf, next, u.body)
    ensures EndField(buf, pos, e) == Ahead(next + |u.body|, e)
  {
    BodyIsRead(buf, next, u.wire, u.body);
    ForeignRound(buf, pos, u.number, u.wire, e);
  }

  lemma {:induction false} ForeignIsSkipped(buf: Bytes, pos: nat, u: Foreign, e: End)
    requires IsForeign(u) && At(buf, pos, ForeignBytes(u))
    ensures pos < |buf| && EndField(buf, pos, e) == Ahead(pos + |ForeignBytes(u)|, e)
  {
    var tag := Varint(8 * u.number + u.wire);
    AtSplits(buf, pos, tag, u.body);
    TagIsRead(buf, pos, u.number, u.wire);
    RoundSkipsBody(buf, pos, pos + |tag|, u, e);
  }

  /** A tag with another wire type is an error, whatever follows. */
  lemma {:induction false} OtherWiresAreErrors(buf: Bytes, pos: nat, number: nat, wire: nat, e: End)
    requires OtherNumber(number) && wire < 8 && wire !in {0, 1, 2, 5} && At(buf, pos, Varint(8 * number + wire))
    ensures pos < |buf| && EndFrom(buf, pos, e) == None
  {
    TagIsRead(buf, pos, number, wire);
    ForeignRound(buf, pos, number, wire, e);
  }

  /** A field of the event, or one that the decoder does not know. */
  datatype Piece = Known(field: Field) | Skipped(foreign: Foreign)

  ghost predicate IsPiece(p: Piece) {
    if p.Known? then EndTyped(p.field) else IsForeign(p.foreign)
  }

  ghost predicate Readable(ps: seq<Piece>) {
    forall i :: 0 <= i < |ps| ==> IsPiece(ps[i])
  }

  function PieceBytes(p: Piece): Bytes {
    match p
    case Known(f) => EncodeField(f)
    case Skipped(u) => ForeignBytes(u)
  }

  function MessageBytes(ps: seq<Piece>): Bytes {
    if ps == [] then [] else PieceBytes(ps[0]) + MessageBytes(ps[1..])
  }

  function KnownFields(ps: seq<Piece>): (fs: seq<Field>) {
    if ps == [] then [] else (if ps[0].Known? then [ps[0].field] else []) + KnownFields(ps[1..])
  }

  lemma {:induction false} KnownFieldsAreTyped(ps: seq<Piece>)
    requires Readable(ps)
    ensures AllEndTyped(KnownFields(ps))
  {
    if ps != [] {
      KnownFieldsAreTyped(ps[1..]);
      assert IsPiece(ps[0]);
      if ps[0].Known? { assert ([ps[0].field] + KnownFields(ps[1..]))[1..] == KnownFields(ps[1..]); }
      assert [] + KnownFields(ps[1..]) == KnownFields(ps[1..]);
    }
  }

  ghost function More(e: End, p: Piece): End
    requires IsPiece(p)
  {
    if p.Known? then Stored(e, p.field) else e
  }

  lemma {:induction false} PieceIsRead(buf: Bytes, pos: nat, p: Piece, e: End)
    requires IsPiece(p) && At(buf, pos, PieceBytes(p))
    ensures pos < |buf| && EndField(buf, pos, e) == Ahead(pos + |PieceBytes(p)|, More(e, p))
  {
    match p
    case Known(f) => ReaderReadsField(buf, pos, f, e);
    case Skipped(u) => ForeignIsSkipped(buf, pos, u, e);
  }

  lemma {:induction false} KnownOfMore(ps: seq<Piece>, e: End)
    requires ps != [] && Readable(ps)
    ensures AllEndTyped(KnownFields(ps)) && AllEndTyped(KnownFields(ps[1..]))
    ensures AllStored(e, KnownFields(ps)) == AllStored(More(e, ps[0]), KnownFields(ps[1..]))
  {
    var rest := KnownFields(ps[1..]);
    KnownFieldsAreTyped(ps);
    KnownFieldsAreTyped(ps[1..]);
    if ps[0].Known? { assert ([ps[0].field] + rest)[1..] == rest; } else { assert [] + rest == rest; }
  }

  lemma {:induction false} MessageSplits(buf: Bytes, pos: nat, ps: seq<Piece>, a: Bytes, b: Bytes)
    requires ps != [] && At(buf, pos, MessageBytes(ps)) && a == PieceBytes(ps[0]) && b == MessageBytes(ps[1..])
    ensures At(buf, pos, a) && At(buf, pos + |a|, b) && |MessageBytes(ps)| == |a| + |b|
  {
    assert MessageBytes(ps) == a + b;
    AtSplits(buf, pos, a, b);
  }

  lemma {:induction false} FirstPieceIsRead(buf: Bytes, pos: nat, p: Piece, e: End, next: nat)
    requires IsPiece(p) && At(buf, pos, PieceBytes(p)) && next == pos + |PieceBytes(p)|
    ensures EndFrom(buf, pos, e) == EndFrom(buf, next, More(e, p))
  {
    PieceIsRead(buf, pos, p, e);
    FirstRound(buf, pos, e, next, More(e, p));
  }

  lemma {:induction false} MessageIsRead(buf: Bytes, pos: nat, ps: seq<Piece>, e: End)
    requires Readable(ps) && At(buf, pos, MessageBytes(ps)) && pos + |MessageBytes(ps)| == |buf|
    ensures AllEndTyped(KnownFields(ps)) && EndFrom(buf, pos, e) == Some(AllStored(e, KnownFields(ps)))
    decreases |ps|
  {
    KnownFieldsAreTyped(ps);
    if ps != [] {
      var next := pos + |PieceBytes(ps[0])|;
      MessageSplits(buf, pos, ps, PieceBytes(ps[0]), MessageBytes(ps[1..]));
      FirstPieceIsRead(buf, pos, ps[0], e, next);
      MessageIsRead(buf, next, ps[1..], More(e, ps[0]));
      KnownOfMore(ps, e);
    }
  }

  /** Fields the decoder does not know, of whatever wire type and wherever they stand, leave its answer as it is. */
  lemma {:induction false} ForeignFieldsChangeNothing(ps: seq<Piece>)
    requires Readable(ps)
    ensures EndFrom(MessageBytes(ps), 0, NO_END) == EndFrom(Encode(KnownFields(ps)), 0, NO_END)
  {
    MessageIsRead(MessageBytes(ps), 0, ps, NO_END);
    ReaderReadsFields(Encode(KnownFields(ps)), 0, KnownFields(ps), NO_END);
  }
}
