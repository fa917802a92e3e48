/**
 * Length-prefixed framing of hash inputs: the client's request ids and the canonical form of audit
 * records share it. Fields are the UTF-8 bytes the source hashes.
 */
module Framing {
  import opened Base

  type Bytes = seq<byte>

  /** A byte string short enough for its length to be written as a `u64`. */
  type Text = s: Bytes | |s| <= U64_MAX witness []

  /** One item of a canonical form: a fixed-width number, a field, or an optional field. */
  datatype Piece = Number(value: nat, width: nat) | Field(text: Text) | Optional(field: Option<Text>)

  function Pow256(width: nat): nat {
    if width == 0 then 1 else 256 * Pow256(width - 1)
  }

  lemma {:induction false} U64Range()
    ensures Pow256(8) == U64_MAX + 1
    ensures Pow256(4) == 0x1_0000_0000
  {
  }

  predicate Fits(piece: Piece) {
    piece.Number? ==> piece.value < Pow256(piece.width)
  }

  function BigEndian(n: nat, width: nat): (b: Bytes)
    requires n < Pow256(width)
    ensures |b| == width
  {
    if width == 0 then [] else BigEndian(n / 256, width - 1) + [n % 256]
  }

  function FromBigEndian(b: Bytes): nat {
    if b == [] then 0 else 256 * FromBigEndian(b[..|b| - 1]) + b[|b| - 1]
  }

  lemma {:induction false} BigEndianInverse(n: nat, width: nat)
    requires n < Pow256(width)
    ensures FromBigEndian(BigEndian(n, width)) == n
  {
    if width > 0 {
      BigEndianInverse(n / 256, width - 1);
      var b := BigEndian(n, width);
      assert b[..|b| - 1] == BigEndian(n / 256, width - 1);
    }
  }

  /** `hash_field` and `write_field`: the length as eight big-endian bytes, then the value. */
  function WriteField(text: Text): Bytes {
    U64Range();
    BigEndian(|text|, 8) + text
  }

  function Write(piece: Piece): Bytes
    requires Fits(piece)
  {
    match piece
    case Number(value, width) => BigEndian(value, width)
    case Field(text) => WriteField(text)
    case Optional(None) => [0]
    case Optional(Some(text)) => [1] + WriteField(text)
  }

  predicate AllFit(pieces: seq<Piece>) {
    forall i :: 0 <= i < |pieces| ==> Fits(pieces[i])
  }

  function WriteAll(pieces: seq<Piece>): Bytes
    requires AllFit(pieces)
  {
    if pieces == [] then [] else Write(pieces[0]) + WriteAll(pieces[1..])
  }

  /** Reads one field back and returns what follows it. */
  function ReadField(bytes: Bytes): Option<(Bytes, Bytes)> {
    if |bytes| < 8 then None
    else
      var size := FromBigEndian(bytes[..8]);
      if |bytes| - 8 < size then None else Some((bytes[8..8 + size], bytes[8 + size..]))
  }

  lemma {:induction false} ReadWritten(text: Text, rest: Bytes)
    ensures ReadField(WriteField(text) + rest) == Some((text, rest))
  {
    U64Range();
    BigEndianInverse(|text|, 8);
    var bytes := WriteField(text) + rest;
    assert bytes[..8] == BigEndian(|text|, 8);
    assert bytes[8..8 + |text|] == text && bytes[8 + |text|..] == rest;
  }

  lemma {:induction false} OptionalSplits(a: Option<Text>, x: Bytes)
    ensures Write(Optional(a)) + x == (if a.None? then [0] + x else [1] + (WriteField(a.value) + x))
  {
  }

  lemma {:induction false} WriteAllUnfolds(ps: seq<Piece>, x: Bytes)
    requires ps != [] && AllFit(ps)
    ensures WriteAll(ps) + x == Write(ps[0]) + (WriteAll(ps[1..]) + x)
  {
  }

  // ------------------------------------------------------------- reading back

  datatype Shape = NumberShape(width: nat) | FieldShape | OptionalShape

  predicate HasShape(piece: Piece, shape: Shape) {
    match shape
    case NumberShape(width) => piece.Number? && piece.width == width
    case FieldShape => piece.Field?
    case OptionalShape => piece.Optional?
  }

  /** Reads one piece of a known shape and returns what follows it. */
  function ReadPiece(shape: Shape, bytes: Bytes): Option<(Piece, Bytes)> {
    match shape
    case NumberShape(width) =>
      if |bytes| < width then None else Some((Number(FromBigEndian(bytes[..width]), width), bytes[width..]))
    case FieldShape =>
      (match ReadField(bytes)
       case None => None
       case Some((text, rest)) => if |text| <= U64_MAX then Some((Field(text), rest)) else None)
    case OptionalShape =>
      if bytes == [] then None
      else if bytes[0] == 0 then Some((Optional(None), bytes[1..]))
      else if bytes[0] != 1 then None
      else
        match ReadField(bytes[1..])
        case None => None
        case Some((text, rest)) => if |text| <= U64_MAX then Some((Optional(Some(text)), rest)) else None
  }

  function ReadPieces(shapes: seq<Shape>, bytes: Bytes): Option<(seq<Piece>, Bytes)> {
    if shapes == [] then Some(([], bytes))
    else
      match ReadPiece(shapes[0], bytes)
      case None => None
      case Some((piece, rest)) =>
        match ReadPieces(shapes[1..], rest)
        case None => None
        case Some((pieces, end)) => Some(([piece] + pieces, end))
  }

  lemma {:induction false} ReadWrittenNumber(value: nat, width: nat, rest: Bytes)
    requires value < Pow256(width)
    ensures ReadPiece(NumberShape(width), BigEndian(value, width) + rest) == Some((Number(value, width), rest))
  {
    BigEndianInverse(value, width);
    var bytes := BigEndian(value, width) + rest;
    assert bytes[..width] == BigEndian(value, width) && bytes[width..] == rest;
  }

  lemma {:induction false} ReadWrittenOptional(field: Option<Text>, rest: Bytes)
    ensures ReadPiece(OptionalShape, Write(Optional(field)) + rest) == Some((Optional(field), rest))
  {
    OptionalSplits(field, rest);
    if field.Some? {
      ReadWritten(field.value, rest);
      assert ([1] + (WriteField(field.value) + rest))[1..] == WriteField(field.value) + rest;
    } else {
      assert ([0] + rest)[1..] == rest;
    }
  }

  lemma {:induction false} ReadWrittenPiece(piece: Piece, shape: Shape, rest: Bytes)
    requires Fits(piece) && HasShape(piece, shape)
    ensures ReadPiece(shape, Write(piece) + rest) == Some((piece, rest))
  {
    match piece
    case Number(value, width) => ReadWrittenNumber(value, width, rest);
    case Field(text) => ReadWritten(text, rest);
    case Optional(field) => ReadWrittenOptional(field, rest);
  }

  ghost predicate HaveShapes(pieces: seq<Piece>, shapes: seq<Shape>) {
    |pieces| == |shapes| && forall i :: 0 <= i < |pieces| ==> HasShape(pieces[i], shapes[i])
  }

  lemma {:induction false} ReadPiecesUnfolds(shapes: seq<Shape>, bytes: Bytes, piece: Piece, rest: Bytes,
                                             pieces: seq<Piece>, end: Bytes)
    requires shapes != [] && ReadPiece(shapes[0], bytes) == Some((piece, rest))
    requires ReadPieces(shapes[1..], rest) == Some((pieces, end))
    ensures ReadPieces(shapes, bytes) == Some(([piece] + pieces, end))
  {
  }

  /** What was written is read back, piece by piece, whatever follows it. */
  lemma {:induction false} ReadWrittenPieces(pieces: seq<Piece>, shapes: seq<Shape>, rest: Bytes)
    requires AllFit(pieces) && HaveShapes(pieces, shapes)
    ensures ReadPieces(shapes, WriteAll(pieces) + rest) == Some((pieces, rest))
  {
    if pieces == [] {
      assert [] + rest == rest;
    } else {
      WriteAllUnfolds(pieces, rest);
      ReadWrittenPiece(pieces[0], shapes[0], WriteAll(pieces[1..]) + rest);
      ReadWrittenPieces(pieces[1..], shapes[1..], rest);
      ReadPiecesUnfolds(shapes, WriteAll(pieces) + rest, pieces[0], WriteAll(pieces[1..]) + rest, pieces[1..], rest);
      assert pieces == [pieces[0]] + pieces[1..];
    }
  }

  /** No boundary between pieces can be mistaken: the concatenation determines every piece. */
  lemma {:induction false} WriteAllCancels(ps: seq<Piece>, x: Bytes, qs: seq<Piece>, y: Bytes, shapes: seq<Shape>)
    requires AllFit(ps) && AllFit(qs) && HaveShapes(ps, shapes) && HaveShapes(qs, shapes)
    requires WriteAll(ps) + x == WriteAll(qs) + y
    ensures ps == qs && x == y
  {
    ReadWrittenPieces(ps, shapes, x);
    ReadWrittenPieces(qs, shapes, y);
  }

  function Ascii(s: string): Bytes {
    seq(|s|, i requires 0 <= i < |s| => s[i] as int % 128)
  }

  // -------------------------------------------------------------- request ids

  const REQUEST_DOMAIN := "underpass.made.client-request.v1\0"

  /** What `derived_request_id` feeds to the digest. */
  function RequestPreimage(invocation: Text, rpc: Text, payload: Text): Bytes {
    Ascii(REQUEST_DOMAIN) + WriteField(invocation) + WriteField(rpc) + WriteField(payload)
  }

  /** Takes a preimage apart again. */
  function ReadRequest(bytes: Bytes): Option<(Bytes, Bytes, Bytes)> {
    var tag := 33;
    if |bytes| < tag || bytes[..tag] != Ascii("underpass.made.client-request.v1\0") then None
    else
      match ReadField(bytes[tag..])
      case None => None
      case Some((invocation, afterInvocation)) =>
        match ReadField(afterInvocation)
        case None => None
        case Some((rpc, afterRpc)) =>
          match ReadField(afterRpc)
          case None => None
          case Some((payload, rest)) => if rest == [] then Some((invocation, rpc, payload)) else None
  }

  lemma {:induction false} ReadWrittenRequest(invocation: Text, rpc: Text, payload: Text)
    ensures ReadRequest(RequestPreimage(invocation, rpc, payload)) == Some((invocation, rpc, payload))
  {
    var tag := Ascii(REQUEST_DOMAIN);
    var bytes := RequestPreimage(invocation, rpc, payload);
    var fields := WriteField(invocation) + (WriteField(rpc) + (WriteField(payload) + []));
    assert bytes == tag + fields;
    assert bytes[..|tag|] == tag && bytes[|tag|..] == fields;
    ReadWritten(invocation, WriteField(rpc) + (WriteField(payload) + []));
    ReadWritten(rpc, WriteField(payload) + []);
    ReadWritten(payload, []);
  }

  /** Two requests hash the same bytes exactly when invocation, method and payload all agree. */
  lemma {:induction false} RequestPreimageInjective(i: Text, r: Text, p: Text, i': Text, r': Text, p': Text)
    ensures RequestPreimage(i, r, p) == RequestPreimage(i', r', p') <==> i == i' && r == r' && p == p'
  {
    ReadWrittenRequest(i, r, p);
    ReadWrittenRequest(i', r', p');
  }
}
