/**
JPEG files written piece by piece, as section B.1 of ITU-T T.81 lays them out, and read back: both
walkers find the dimensions that a frame header spells.
*/
module JpegWritten {
  import opened Wrappers
  import opened Bytes
  import opened JpegMarkers

  /** A byte between segments, a marker without parameters, or a marker with a payload; fill bytes precede a code. */
  datatype Piece = Stray(b: byte) | Alone(fill: nat, code: byte) | Block(fill: nat, code: byte, payload: seq<byte>)

  /** A frame header up to its width; `length` is what its own length field says. */
  datatype Frame = Frame(fill: nat, code: byte, length: nat, precision: byte, height: nat, width: nat)

  function Marker(fill: nat, code: byte): (r: seq<byte>)
    ensures |r| == fill + 2 && r[fill + 1] == code && forall i :: 0 <= i <= fill ==> r[i] == 0xFF
  {
    seq(fill + 1, _ => 0xFF) + [code]
  }

  predicate IsFrameCode(code: byte) {
    code in {0xC0, 0xC1, 0xC2, 0xC3, 0xC5, 0xC6, 0xC7, 0xC9, 0xCA, 0xCB, 0xCD, 0xCE, 0xCF}
  }

  lemma CodesAre(code: byte)
    ensures StartOfFrame(code) <==> IsFrameCode(code)
    ensures Standalone(code) <==> 0xD0 <= code <= 0xD9
  {
  }

  /** A code of a segment that is no frame. */
  predicate IsBlockCode(code: byte) { !(0xD0 <= code <= 0xD9) && !IsFrameCode(code) && code != 0xFF }

  predicate FitsPiece(piece: Piece) {
    match piece
    case Stray(b) => b != 0xFF
    case Alone(_, code) => 0xD0 <= code <= 0xD9
    case Block(_, code, payload) => IsBlockCode(code) && |payload| <= 65533
  }

  predicate FitsFrame(f: Frame) {
    IsFrameCode(f.code) && f.length < 0x1_0000 && 0 < f.height < 0x1_0000 && 0 < f.width < 0x1_0000
  }

  function WritePiece(piece: Piece): (r: seq<byte>)
    ensures |r| > 0
  {
    match piece
    case Stray(b) => [b]
    case Alone(fill, code) => Marker(fill, code)
    case Block(fill, code, payload) => Marker(fill, code) + (ToBytes(|payload| + 2, 2) + payload)
  }

  function WriteFrame(f: Frame): seq<byte> {
    Marker(f.fill, f.code) + (ToBytes(f.length, 2) + [f.precision] + ToBytes(f.height, 2) + ToBytes(f.width, 2))
  }

  function Written(pieces: seq<Piece>, tail: seq<byte>): seq<byte> {
    if pieces == [] then tail else WritePiece(pieces[0]) + Written(pieces[1..], tail)
  }

  predicate Fit(pieces: seq<Piece>) { forall i :: 0 <= i < |pieces| ==> FitsPiece(pieces[i]) }

  predicate NoStrays(pieces: seq<Piece>) { forall i :: 0 <= i < |pieces| ==> !pieces[i].Stray? }

  /** Two bytes, the pieces, a frame, and whatever follows. */
  function WrittenFile(start: seq<byte>, pieces: seq<Piece>, f: Frame, rest: seq<byte>): seq<byte> {
    start + Written(pieces, WriteFrame(f) + rest)
  }

  // ----- one piece

  /** What stands at `p` of the data. */
  predicate StandsAt(data: seq<byte>, p: nat, x: seq<byte>) {
    p + |x| <= |data| && data[p..p + |x|] == x
  }

  lemma StandsFirst(data: seq<byte>, p: nat, x: seq<byte>, y: seq<byte>)
    requires p <= |data| && data[p..] == x + y
    ensures StandsAt(data, p, x) && data[p + |x|..] == y
  {
    assert data[p..][..|x|] == x && data[p..][|x|..] == y;
  }

  lemma StandsInside(data: seq<byte>, p: nat, x: seq<byte>, y: seq<byte>)
    requires StandsAt(data, p, x + y)
    ensures StandsAt(data, p, x) && StandsAt(data, p + |x|, y)
  {
    assert (x + y)[..|x|] == x && (x + y)[|x|..] == y;
    assert data[p..p + |x + y|][..|x|] == data[p..p + |x|];
    assert data[p..p + |x + y|][|x|..] == data[p + |x|..p + |x + y|];
  }

  lemma {:induction false} FillEnds(data: seq<byte>, p: nat, q: nat)
    requires p <= q < |data| && data[q] != 0xFF && forall i :: p <= i < q ==> data[i] == 0xFF
    ensures AfterFill(data, p) == q
    decreases q - p
  {
    if p < q {
      FillEnds(data, p + 1, q);
    }
  }

  /** A written marker is read as the marker it is. */
  lemma MarkerRead(data: seq<byte>, p: nat, fill: nat, code: byte)
    requires StandsAt(data, p, Marker(fill, code)) && code != 0xFF
    ensures AfterFill(data, p) == p + fill + 1 && MarkerAt(data, p) && Code(data, p) == code
  {
    var x := Marker(fill, code);
    assert forall i :: 0 <= i < |x| ==> x[i] == data[p + i];
    FillEnds(data, p, p + fill + 1);
  }

  lemma NumberRead(data: seq<byte>, p: nat, n: nat)
    requires n < 0x1_0000 && StandsAt(data, p, ToBytes(n, 2))
    ensures BigEndian(Slice(data, p, p + 2)) == n
  {
    assert Range(0) == 1 && Range(1) == 256 && Range(2) == 0x1_0000;
    ReadBack(n, 2);
  }

  lemma AloneIsStep(data: seq<byte>, p: nat, fill: nat, code: byte)
    requires StandsAt(data, p, Marker(fill, code)) && 0xD0 <= code <= 0xD9
    ensures SoundSegment(data, p, p + fill + 2)
  {
    MarkerRead(data, p, fill, code);
  }

  lemma PartsStand(data: seq<byte>, p: nat, x: seq<byte>, y: seq<byte>, z: seq<byte>)
    requires StandsAt(data, p, x + (y + z))
    ensures StandsAt(data, p, x) && StandsAt(data, p + |x|, y) && StandsAt(data, p + |x| + |y|, z)
  {
    StandsInside(data, p, x, y + z);
    StandsInside(data, p + |x|, y, z);
  }

  lemma LongSegment(data: seq<byte>, p: nat, c: nat, n: nat)
    requires MarkerAt(data, p) && c == AfterFill(data, p) + 1 && IsBlockCode(Code(data, p))
    requires BigEndian(Slice(data, c, c + 2)) == n && n >= 2
    ensures SoundSegment(data, p, c + n)
  {
    CodesAre(Code(data, p));
  }

  lemma BlockIsStep(data: seq<byte>, p: nat, piece: Piece)
    requires piece.Block? && FitsPiece(piece) && StandsAt(data, p, WritePiece(piece))
    ensures SoundSegment(data, p, p + |WritePiece(piece)|)
  {
    var c, n := p + piece.fill + 2, |piece.payload| + 2;
    PartsStand(data, p, Marker(piece.fill, piece.code), ToBytes(n, 2), piece.payload);
    MarkerRead(data, p, piece.fill, piece.code);
    NumberRead(data, c, n);
    LongSegment(data, p, c, n);
  }

  /** The tolerant walk takes any piece in one step, the strict one any but a stray byte. */
  lemma PieceIsStep(data: seq<byte>, p: nat, piece: Piece)
    requires FitsPiece(piece) && StandsAt(data, p, WritePiece(piece))
    ensures LooseSegment(data, p, p + |WritePiece(piece)|)
    ensures !piece.Stray? ==> SoundSegment(data, p, p + |WritePiece(piece)|)
  {
    match piece
    case Stray(b) => assert data[p] == data[p..p + 1][0];
    case Alone(fill, code) => AloneIsStep(data, p, fill, code);
    case Block(_, _, _) => BlockIsStep(data, p, piece);
  }

  // ----- the frame

  lemma FrameParts(data: seq<byte>, p: nat, f: Frame)
    requires StandsAt(data, p, WriteFrame(f))
    ensures StandsAt(data, p, Marker(f.fill, f.code))
    ensures StandsAt(data, p + f.fill + 5, ToBytes(f.height, 2) + ToBytes(f.width, 2))
  {
    var head, size := ToBytes(f.length, 2) + [f.precision], ToBytes(f.height, 2) + ToBytes(f.width, 2);
    assert ToBytes(f.length, 2) + [f.precision] + ToBytes(f.height, 2) + ToBytes(f.width, 2) == head + size;
    PartsStand(data, p, Marker(f.fill, f.code), head, size);
  }

  lemma SizeRead(data: seq<byte>, p: nat, height: nat, width: nat)
    requires height < 0x1_0000 && width < 0x1_0000
    requires StandsAt(data, p + 3, ToBytes(height, 2) + ToBytes(width, 2))
    ensures FrameSize(data, p) == Some((width, height))
  {
    var b := Slice(data, p + 3, p + 7);
    assert b == ToBytes(height, 2) + ToBytes(width, 2);
    assert b[0..2] == ToBytes(height, 2) && b[2..4] == ToBytes(width, 2);
    assert Range(0) == 1 && Range(1) == 256 && Range(2) == 0x1_0000;
    ReadBack(height, 2);
    ReadBack(width, 2);
  }

  lemma FrameMarkerRead(data: seq<byte>, p: nat, fill: nat, code: byte)
    requires StandsAt(data, p, Marker(fill, code)) && IsFrameCode(code)
    ensures IsFrame(data, p) && AfterFill(data, p) + 1 == p + fill + 2
  {
    CodesAre(code);
    MarkerRead(data, p, fill, code);
  }

  lemma FrameRead(data: seq<byte>, p: nat, f: Frame)
    requires FitsFrame(f) && StandsAt(data, p, WriteFrame(f))
    ensures IsFrame(data, p) && FrameSize(data, AfterFill(data, p) + 1) == Some((f.width, f.height))
  {
    FrameParts(data, p, f);
    FrameMarkerRead(data, p, f.fill, f.code);
    SizeRead(data, p + f.fill + 2, f.height, f.width);
  }

  // ----- the whole file

  /** The tolerant walk, or the steps that both walks take. */
  function StepOf(data: seq<byte>, tolerant: bool): Step { if tolerant then Loose(data) else Sound(data) }

  /** The path leads to where the tail stands. */
  predicate ReachesTail(data: seq<byte>, tolerant: bool, starts: seq<nat>, p: nat, tail: seq<byte>) {
    Path(StepOf(data, tolerant), starts, p) && p <= |data| && data[p..] == tail
  }

  /** A piece of which the walk takes in one step. */
  predicate Takes(tolerant: bool, piece: Piece) { FitsPiece(piece) && (tolerant || !piece.Stray?) }

  lemma PieceGrowsPath(data: seq<byte>, tolerant: bool, here: seq<nat>, position: nat, piece: Piece, after: seq<byte>)
    returns (starts: seq<nat>, p: nat)
    requires Takes(tolerant, piece) && ReachesTail(data, tolerant, here, position, WritePiece(piece) + after)
    ensures ReachesTail(data, tolerant, starts, p, after)
  {
    starts, p := here + [position], position + |WritePiece(piece)|;
    StandsFirst(data, position, WritePiece(piece), after);
    PieceIsStep(data, position, piece);
    PathGrows(StepOf(data, tolerant), here, position, p);
  }

  predicate TakesAll(tolerant: bool, pieces: seq<Piece>) {
    forall i :: 0 <= i < |pieces| ==> Takes(tolerant, pieces[i])
  }

  lemma {:induction false} WrittenOneMore(pieces: seq<Piece>, piece: Piece, tail: seq<byte>)
    ensures Written(pieces + [piece], tail) == Written(pieces, WritePiece(piece) + tail)
  {
    if pieces == [] {
      assert [piece][1..] == [];
    } else {
      WrittenOneMore(pieces[1..], piece, tail);
      assert (pieces + [piece])[1..] == pieces[1..] + [piece];
    }
  }

  /** The file is these pieces and then the tail. */
  predicate PiecesThen(data: seq<byte>, pieces: seq<Piece>, tail: seq<byte>) {
    2 <= |data| && data[2..] == Written(pieces, tail)
  }

  lemma LastPieceThen(data: seq<byte>, pieces: seq<Piece>, tail: seq<byte>)
    requires pieces != [] && PiecesThen(data, pieces, tail)
    ensures PiecesThen(data, pieces[..|pieces| - 1], WritePiece(pieces[|pieces| - 1]) + tail)
  {
    assert pieces == pieces[..|pieces| - 1] + [pieces[|pieces| - 1]];
    WrittenOneMore(pieces[..|pieces| - 1], pieces[|pieces| - 1], tail);
  }

  /** The pieces lead to where the tail stands. */
  lemma {:induction false} PiecesArePath(data: seq<byte>, tolerant: bool, pieces: seq<Piece>, tail: seq<byte>)
    returns (starts: seq<nat>, p: nat)
    requires TakesAll(tolerant, pieces) && PiecesThen(data, pieces, tail)
    ensures ReachesTail(data, tolerant, starts, p, tail)
    decreases |pieces|
  {
    if pieces == [] {
      starts, p := [], 2;
    } else {
      var last := pieces[|pieces| - 1];
      LastPieceThen(data, pieces, tail);
      var before, q := PiecesArePath(data, tolerant, pieces[..|pieces| - 1], WritePiece(last) + tail);
      starts, p := PieceGrowsPath(data, tolerant, before, q, last, tail);
    }
  }

  lemma WrittenIsFound(start: seq<byte>, pieces: seq<Piece>, f: Frame, rest: seq<byte>, tolerant: bool)
    requires |start| == 2 && TakesAll(tolerant, pieces) && FitsFrame(f)
    ensures
      var data := WrittenFile(start, pieces, f, rest);
      exists starts, p :: LeadsTo(data, StepOf(data, tolerant), starts, p, (f.width, f.height))
  {
    var data := WrittenFile(start, pieces, f, rest);
    assert data[2..] == Written(pieces, WriteFrame(f) + rest);
    var starts, p := PiecesArePath(data, tolerant, pieces, WriteFrame(f) + rest);
    StandsFirst(data, p, WriteFrame(f), rest);
    FrameRead(data, p, f);
    assert LeadsTo(data, StepOf(data, tolerant), starts, p, (f.width, f.height));
  }

  /** Of a file of segments and a frame, both walkers return what the frame header spells. */
  lemma BothReadWritten(start: seq<byte>, pieces: seq<Piece>, f: Frame, rest: seq<byte>,
                        r: Result<Dimensions, Failure>)
    requires |start| == 2 && Fit(pieces) && NoStrays(pieces) && FitsFrame(f)
    requires
      var data := WrittenFile(start, pieces, f, rest);
      Verdict(data, Strict(data), r) || Verdict(data, Loose(data), r)
    ensures r == Ok((f.width, f.height))
  {
    var data := WrittenFile(start, pieces, f, rest);
    WrittenIsFound(start, pieces, f, rest, false);
    var starts, p :| LeadsTo(data, Sound(data), starts, p, (f.width, f.height));
    SoundPathsAreLoose(data, starts, p);
    assert LeadsTo(data, Strict(data), starts, p, (f.width, f.height));
    assert LeadsTo(data, Loose(data), starts, p, (f.width, f.height));
  }

  // ----- every file the tolerant walk reads is so written

  lemma MarkerWritten(data: seq<byte>, p: nat)
    requires MarkerAt(data, p)
    ensures
      var q := AfterFill(data, p);
      p < q && data[p..q + 1] == Marker(q - p - 1, data[q]) && data[q] != 0xFF
  {
    var q := AfterFill(data, p);
    var x := Marker(q - p - 1, data[q]);
    assert forall i :: 0 <= i < |x| ==> x[i] == data[p + i];
  }

  lemma NumberWritten(data: seq<byte>, p: nat)
    requires p + 2 <= |data|
    ensures BigEndian(Slice(data, p, p + 2)) < 0x1_0000
    ensures ToBytes(BigEndian(Slice(data, p, p + 2)), 2) == data[p..p + 2]
  {
    assert Range(0) == 1 && Range(1) == 256 && Range(2) == 0x1_0000;
    WriteBack(data[p..p + 2]);
  }

  /** The piece stands between these positions. */
  predicate PieceBetween(data: seq<byte>, p: nat, q: nat, piece: Piece) {
    FitsPiece(piece) && q == p + |WritePiece(piece)| && StandsAt(data, p, WritePiece(piece))
  }

  lemma LengthOfBlock(data: seq<byte>, p: nat, q: nat)
    requires SoundSegment(data, p, q) && HasLength(data, p)
    ensures
      var c := AfterFill(data, p);
      p < c < |data| && IsBlockCode(data[c]) && q == c + 1 + Length(data, c + 1) && Length(data, c + 1) >= 2
  {
    CodesAre(data[AfterFill(data, p)]);
  }

  lemma BlockRead(data: seq<byte>, p: nat, q: nat)
    requires SoundSegment(data, p, q) && HasLength(data, p) && q <= |data|
    ensures
      var c := AfterFill(data, p);
      && p < c && c + 3 <= q && q == c + 1 + Length(data, c + 1) && Length(data, c + 1) < 0x1_0000
      && ToBytes(Length(data, c + 1), 2) == data[c + 1..c + 3] && IsBlockCode(data[c])
  {
    LengthOfBlock(data, p, q);
    NumberWritten(data, AfterFill(data, p) + 1);
  }

  lemma Spans(data: seq<byte>, p: nat, q: nat, x: seq<byte>)
    requires p <= q <= |data| && data[p..q] == x
    ensures StandsAt(data, p, x) && q == p + |x|
  {
  }

  /** The bytes from `p` to `q`, with the code at `c`, are those of a segment. */
  predicate HasBlockBytes(data: seq<byte>, p: nat, c: nat, q: nat) {
    && p < c && c + 3 <= q <= |data| && q - c - 1 < 0x1_0000 && IsBlockCode(data[c])
    && data[p..c + 1] == Marker(c - p - 1, data[c]) && data[c + 1..c + 3] == ToBytes(q - c - 1, 2)
  }

  /** Three stretches of the data, end to end. */
  lemma Stretches(data: seq<byte>, p: nat, a: nat, b: nat, q: nat)
    requires p <= a <= b <= q <= |data|
    ensures data[p..q] == data[p..a] + (data[a..b] + data[b..q])
  {
  }

  lemma BlockSpells(fill: nat, code: byte, payload: seq<byte>, x: seq<byte>, y: seq<byte>)
    requires x == Marker(fill, code) && y == ToBytes(|payload| + 2, 2)
    ensures WritePiece(Block(fill, code, payload)) == x + (y + payload)
  {
  }

  lemma BlockBytes(data: seq<byte>, p: nat, c: nat, q: nat)
    requires HasBlockBytes(data, p, c, q)
    ensures WritePiece(Block(c - p - 1, data[c], data[c + 3..q])) == data[p..q]
  {
    var fill, code, payload := c - p - 1, data[c], data[c + 3..q];
    var x, y := data[p..c + 1], data[c + 1..c + 3];
    assert |payload| + 2 == q - c - 1;
    assert WritePiece(Block(fill, code, payload)) == x + (y + payload) by {
      BlockSpells(fill, code, payload, x, y);
    }
    assert data[p..q] == x + (y + payload) by {
      Stretches(data, p, c + 1, c + 3, q);
    }
  }

  lemma BlockAssembles(data: seq<byte>, p: nat, c: nat, q: nat) returns (piece: Piece)
    requires HasBlockBytes(data, p, c, q)
    ensures PieceBetween(data, p, q, piece)
  {
    piece := Block(c - p - 1, data[c], data[c + 3..q]);
    BlockBytes(data, p, c, q);
    Spans(data, p, q, WritePiece(piece));
  }

  lemma StepIsBlock(data: seq<byte>, p: nat, q: nat) returns (piece: Piece)
    requires SoundSegment(data, p, q) && HasLength(data, p) && q <= |data|
    ensures PieceBetween(data, p, q, piece)
  {
    MarkerWritten(data, p);
    BlockRead(data, p, q);
    piece := BlockAssembles(data, p, AfterFill(data, p), q);
  }

  /** The piece that a step of the tolerant walk passes. */
  lemma StepIsPiece(data: seq<byte>, p: nat, q: nat) returns (piece: Piece)
    requires LooseSegment(data, p, q) && q <= |data|
    ensures PieceBetween(data, p, q, piece)
  {
    if data[p] != 0xFF {
      piece := Stray(data[p]);
    } else {
      MarkerWritten(data, p);
      var c := AfterFill(data, p);
      if Standalone(data[c]) {
        piece := Alone(c - p - 1, data[c]);
      } else {
        piece := StepIsBlock(data, p, q);
      }
    }
  }

  /** A frame header with room for its dimensions is written as they are read. */
  lemma FrameFields(data: seq<byte>, p: nat, d: Dimensions)
    requires FrameSize(data, p) == Some(d)
    ensures p + 7 <= |data| && Length(data, p) < 0x1_0000 && d.0 < 0x1_0000 && d.1 < 0x1_0000
    ensures ToBytes(Length(data, p), 2) == data[p..p + 2]
    ensures ToBytes(d.1, 2) == data[p + 3..p + 5] && ToBytes(d.0, 2) == data[p + 5..p + 7]
  {
    var b := Slice(data, p + 3, p + 7);
    assert b[0..2] == data[p + 3..p + 5] && b[2..4] == data[p + 5..p + 7];
    NumberWritten(data, p);
    NumberWritten(data, p + 3);
    NumberWritten(data, p + 5);
  }

  lemma FrameStretches(data: seq<byte>, p: nat, c: nat)
    requires p <= c && c + 7 <= |data|
    ensures data[p..c + 7] ==
      data[p..c] + (data[c..c + 2] + [data[c + 2]] + data[c + 3..c + 5] + data[c + 5..c + 7])
  {
  }

  /** The bytes from `p` on, with the length field at `c`, are those of this frame header. */
  predicate HasFrameBytes(data: seq<byte>, p: nat, c: nat, f: Frame) {
    && p + 2 <= c && c + 7 <= |data| && f.fill == c - p - 2 && data[c + 2] == f.precision
    && data[p..c] == Marker(f.fill, f.code) && ToBytes(f.length, 2) == data[c..c + 2]
    && ToBytes(f.height, 2) == data[c + 3..c + 5] && ToBytes(f.width, 2) == data[c + 5..c + 7]
  }

  lemma FrameAssembles(data: seq<byte>, p: nat, c: nat, f: Frame)
    requires HasFrameBytes(data, p, c, f)
    ensures StandsAt(data, p, WriteFrame(f))
  {
    FrameStretches(data, p, c);
  }

  lemma FrameBytes(data: seq<byte>, p: nat, d: Dimensions) returns (c: nat, f: Frame)
    requires IsFrame(data, p) && FrameSize(data, AfterFill(data, p) + 1) == Some(d) && d.0 != 0 && d.1 != 0
    ensures FitsFrame(f) && HasFrameBytes(data, p, c, f) && d == (f.width, f.height)
  {
    c := AfterFill(data, p) + 1;
    MarkerWritten(data, p);
    CodesAre(data[c - 1]);
    FrameFields(data, c, d);
    f := Frame(c - p - 2, data[c - 1], Length(data, c), data[c + 2], d.1, d.0);
  }

  lemma FrameWritten(data: seq<byte>, p: nat, d: Dimensions) returns (f: Frame)
    requires IsFrame(data, p) && FrameSize(data, AfterFill(data, p) + 1) == Some(d) && d.0 != 0 && d.1 != 0
    ensures FitsFrame(f) && StandsAt(data, p, WriteFrame(f)) && d == (f.width, f.height)
  {
    var c;
    c, f := FrameBytes(data, p, d);
    FrameAssembles(data, p, c, f);
  }

  /** Up to `p` the file consists of these pieces. */
  predicate WrittenUpTo(data: seq<byte>, pieces: seq<Piece>, p: nat) {
    2 <= p <= |data| && Fit(pieces) && data[2..] == Written(pieces, data[p..])
  }

  lemma TailSplits(data: seq<byte>, p: nat, x: seq<byte>)
    requires StandsAt(data, p, x)
    ensures data[p..] == x + data[p + |x|..]
  {
  }

  lemma FitOneMore(pieces: seq<Piece>, piece: Piece)
    requires Fit(pieces) && FitsPiece(piece)
    ensures Fit(pieces + [piece])
  {
  }

  lemma OneMorePiece(data: seq<byte>, pieces: seq<Piece>, p: nat, q: nat, piece: Piece)
    requires WrittenUpTo(data, pieces, p) && PieceBetween(data, p, q, piece)
    ensures WrittenUpTo(data, pieces + [piece], q)
  {
    TailSplits(data, p, WritePiece(piece));
    WrittenOneMore(pieces, piece, data[q..]);
    FitOneMore(pieces, piece);
  }

  lemma StepGrowsPieces(data: seq<byte>, pieces: seq<Piece>, p: nat, q: nat) returns (more: seq<Piece>)
    requires WrittenUpTo(data, pieces, p) && LooseSegment(data, p, q) && q <= |data|
    ensures WrittenUpTo(data, more, q)
  {
    var piece := StepIsPiece(data, p, q);
    OneMorePiece(data, pieces, p, q, piece);
    more := pieces + [piece];
  }

  lemma LastStep(data: seq<byte>, starts: seq<nat>, p: nat)
    requires starts != [] && Path(Loose(data), starts, p)
    ensures
      var last := starts[|starts| - 1];
      Path(Loose(data), starts[..|starts| - 1], last) && LooseSegment(data, last, p) && last < |data|
  {
  }

  lemma {:induction false} PathIsPieces(data: seq<byte>, starts: seq<nat>, p: nat) returns (pieces: seq<Piece>)
    requires Path(Loose(data), starts, p) && p <= |data|
    ensures WrittenUpTo(data, pieces, p)
    decreases |starts|
  {
    if starts == [] {
      pieces := [];
    } else {
      LastStep(data, starts, p);
      pieces := PathIsPieces(data, starts[..|starts| - 1], starts[|starts| - 1]);
      pieces := StepGrowsPieces(data, pieces, starts[|starts| - 1], p);
    }
  }

  /** The file is so written, with a frame that spells these dimensions. */
  ghost predicate IsWritten(data: seq<byte>, d: Dimensions) {
    exists start: seq<byte>, pieces: seq<Piece>, f: Frame, rest: seq<byte> ::
      && data == WrittenFile(start, pieces, f, rest) && |start| == 2 && Fit(pieces) && FitsFrame(f)
      && d == (f.width, f.height)
  }

  lemma AssembleFile(data: seq<byte>, p: nat, pieces: seq<Piece>, f: Frame)
    requires WrittenUpTo(data, pieces, p) && FitsFrame(f) && StandsAt(data, p, WriteFrame(f))
    ensures IsWritten(data, (f.width, f.height))
  {
    assert data[p..] == WriteFrame(f) + data[p + |WriteFrame(f)|..];
    assert data == data[..2] + data[2..];
    assert data == WrittenFile(data[..2], pieces, f, data[p + |WriteFrame(f)|..]);
  }

  lemma FoundIsWritten(data: seq<byte>, starts: seq<nat>, p: nat, d: Dimensions)
    requires LeadsTo(data, Loose(data), starts, p, d)
    ensures IsWritten(data, d)
  {
    var pieces := PathIsPieces(data, starts, p);
    var f := FrameWritten(data, p, d);
    AssembleFile(data, p, pieces, f);
  }

  /** The tolerant walk finds these dimensions if and only if the file is so written, with a frame that spells them. */
  lemma TolerantReadsWritten(data: seq<byte>, d: Dimensions)
    ensures Finds(data, Loose(data), d) <==> IsWritten(data, d)
  {
    if Finds(data, Loose(data), d) {
      var starts, p :| LeadsTo(data, Loose(data), starts, p, d);
      FoundIsWritten(data, starts, p, d);
    }
    if IsWritten(data, d) {
      var start, pieces, f, rest :|
        && data == WrittenFile(start, pieces, f, rest) && |start| == 2 && Fit(pieces) && FitsFrame(f)
        && d == (f.width, f.height);
      WrittenIsFound(start, pieces, f, rest, true);
    }
  }
}
