/**
`faststart`: walk the top-level boxes of an MP4 file and tell whether the movie header precedes the
media data. Box headers are those of section 4.2 of ISO/IEC 14496-12: a 32-bit size and a type, a
64-bit size when the first is 1, and the rest of the file when it is 0.
*/
module Mp4Boxes {
  import opened Bytes

  type Kind = seq<byte>

  const MOOV: Kind := [0x6d, 0x6f, 0x6f, 0x76]
  const MDAT: Kind := [0x6d, 0x64, 0x61, 0x74]

  /** The size field and header length of the box at a position; a short 64-bit field reads what is left. */
  function Header(data: seq<byte>, position: nat): (r: (nat, nat))
    requires position + 8 <= |data|
  {
    var size := BigEndian(data[position..position + 4]);
    if size == 1 then (BigEndian(Slice(data, position + 8, position + 16)), 16)
    else if size == 0 then (|data| - position, 8)
    else (size, 8)
  }

  function KindAt(data: seq<byte>, position: nat): Kind
    requires position + 8 <= |data|
  {
    data[position + 4..position + 8]
  }

  // ----- the reference: a layout of the whole file

  /** A box as the format defines it: it holds its own header and ends inside the file. */
  predicate IsBox(data: seq<byte>, position: nat, end: nat) {
    && position + 8 <= |data|
    && var (size, header) := Header(data, position);
    size >= header && end == position + size && end <= |data|
  }

  /**
  Box positions laid end to end from `position` on, followed by fewer than 8 bytes, too few for a
  box header.
  */
  predicate IsLayout(data: seq<byte>, starts: seq<nat>, position: nat) {
    if starts == [] then position <= |data| < position + 8
    else
      && starts[0] == position
      && position + 8 <= |data|
      && var (size, header) := Header(data, position);
      size >= header && position + size <= |data| && IsLayout(data, starts[1..], position + size)
  }

  /** The first box of a kind is the one at index `i`. */
  predicate FirstOf(data: seq<byte>, starts: seq<nat>, kind: Kind, i: nat) {
    && i < |starts|
    && (forall j :: 0 <= j < |starts| ==> starts[j] + 8 <= |data|)
    && KindAt(data, starts[i]) == kind
    && forall j :: 0 <= j < i ==> KindAt(data, starts[j]) != kind
  }

  /** The file is a sequence of boxes and its first movie header comes before its first media data. */
  ghost predicate IsFaststart(data: seq<byte>) {
    exists starts, i: nat, j: nat ::
      IsLayout(data, starts, 0) && FirstOf(data, starts, MOOV, i) && FirstOf(data, starts, MDAT, j) && i < j
  }

  /** A file has at most one layout. */
  lemma {:induction false} LayoutIsUnique(data: seq<byte>, a: seq<nat>, b: seq<nat>, position: nat)
    requires IsLayout(data, a, position) && IsLayout(data, b, position)
    ensures a == b
  {
    if a != [] && b != [] {
      LayoutIsUnique(data, a[1..], b[1..], position + Header(data, position).0);
    }
  }

  lemma {:induction false} LayoutIncreases(data: seq<byte>, starts: seq<nat>, position: nat)
    requires IsLayout(data, starts, position)
    ensures forall i :: 0 <= i < |starts| ==> position <= starts[i] && starts[i] + 8 <= |data|
    ensures forall i, j :: 0 <= i < j < |starts| ==> starts[i] < starts[j]
  {
    if starts != [] {
      LayoutIncreases(data, starts[1..], position + Header(data, position).0);
      assert forall i :: 0 < i < |starts| ==> starts[i] == starts[1..][i - 1];
    }
  }

  predicate IsBoxEnding(data: seq<byte>, starts: seq<nat>, position: nat)
    requires starts != []
  {
    IsBox(data, starts[|starts| - 1], position)
  }

  /** Boxes walked so far, ending where the walk stands. */
  predicate Walked(data: seq<byte>, starts: seq<nat>, position: nat) {
    if starts == [] then position == 0
    else IsBoxEnding(data, starts, position) && Walked(data, starts[..|starts| - 1], starts[|starts| - 1])
  }

  /** What is walked is the beginning of the layout, if there is one. */
  lemma {:induction false} WalkedIsPrefix(data: seq<byte>, walked: seq<nat>, position: nat, rest: seq<nat>)
    requires Walked(data, walked, position)
    ensures IsLayout(data, walked + rest, 0) <==> IsLayout(data, rest, position)
  {
    if walked == [] {
      assert walked + rest == rest;
    } else {
      var last := walked[|walked| - 1];
      var init := walked[..|walked| - 1];
      WalkedIsPrefix(data, init, last, [last] + rest);
      assert init + ([last] + rest) == walked + rest;
      assert ([last] + rest)[1..] == rest;
    }
  }

  /** A layout, if there is one, starts with what was walked. */
  lemma {:induction false} LayoutExtendsWalk(data: seq<byte>, walked: seq<nat>, position: nat, starts: seq<nat>)
    requires Walked(data, walked, position) && IsLayout(data, starts, 0)
    ensures |walked| <= |starts| && starts[..|walked|] == walked && IsLayout(data, starts[|walked|..], position)
  {
    if walked == [] {
      assert starts[0..] == starts;
    } else {
      var last, init := walked[|walked| - 1], walked[..|walked| - 1];
      LayoutExtendsWalk(data, init, last, starts);
      var rest := starts[|init|..];
      assert rest != [] && rest[0] == last && rest[1..] == starts[|walked|..];
    }
  }

  /** The first positions of each kind among the boxes walked, as `setdefault` keeps them. */
  ghost predicate Firsts(data: seq<byte>, walked: seq<nat>, positions: map<Kind, nat>) {
    && (forall i :: 0 <= i < |walked| ==> walked[i] + 8 <= |data|)
    && (forall kind :: kind in positions ==>
        exists i: nat :: FirstOf(data, walked, kind, i) && positions[kind] == walked[i])
    && (forall i :: 0 <= i < |walked| ==> KindAt(data, walked[i]) in positions)
  }

  lemma FirstsGrow(data: seq<byte>, walked: seq<nat>, positions: map<Kind, nat>, position: nat)
    requires Firsts(data, walked, positions) && position + 8 <= |data|
    ensures
      var kind := KindAt(data, position);
      Firsts(data, walked + [position], if kind in positions then positions else positions[kind := position])
  {
    var longer, kind := walked + [position], KindAt(data, position);
    var after := if kind in positions then positions else positions[kind := position];
    assert forall i :: 0 <= i < |walked| ==> longer[i] == walked[i];
    forall k | k in after
      ensures exists i: nat :: FirstOf(data, longer, k, i) && after[k] == longer[i]
    {
      if k in positions {
        var i: nat :| FirstOf(data, walked, k, i) && positions[k] == walked[i];
        assert FirstOf(data, longer, k, i);
      } else {
        assert FirstOf(data, longer, k, |walked|);
      }
    }
  }

  /** The recorded position of a kind is where its first box starts. */
  lemma PositionIsFirst(data: seq<byte>, starts: seq<nat>, positions: map<Kind, nat>, kind: Kind, i: nat)
    requires Firsts(data, starts, positions) && FirstOf(data, starts, kind, i)
    ensures kind in positions && positions[kind] == starts[i]
  {
    var k: nat :| FirstOf(data, starts, kind, k) && positions[kind] == starts[k];
  }

  lemma PositionsSuffice(data: seq<byte>, starts: seq<nat>, positions: map<Kind, nat>)
    requires IsLayout(data, starts, 0) && Firsts(data, starts, positions)
    requires MOOV in positions && MDAT in positions && positions[MOOV] < positions[MDAT]
    ensures IsFaststart(data)
  {
    LayoutIncreases(data, starts, 0);
    var i: nat :| FirstOf(data, starts, MOOV, i) && positions[MOOV] == starts[i];
    var j: nat :| FirstOf(data, starts, MDAT, j) && positions[MDAT] == starts[j];
    assert i < j;
  }

  /** Comparing the recorded positions decides the question for the file's one layout. */
  lemma PositionsDecide(data: seq<byte>, starts: seq<nat>, positions: map<Kind, nat>)
    requires IsLayout(data, starts, 0) && Firsts(data, starts, positions)
    ensures (MOOV in positions && MDAT in positions && positions[MOOV] < positions[MDAT]) <==> IsFaststart(data)
  {
    if MOOV in positions && MDAT in positions && positions[MOOV] < positions[MDAT] {
      PositionsSuffice(data, starts, positions);
    }
    if IsFaststart(data) {
      var other, i: nat, j: nat :|
        IsLayout(data, other, 0) && FirstOf(data, other, MOOV, i) && FirstOf(data, other, MDAT, j) && i < j;
      LayoutIsUnique(data, starts, other, 0);
      LayoutIncreases(data, starts, 0);
      PositionIsFirst(data, starts, positions, MOOV, i);
      PositionIsFirst(data, starts, positions, MDAT, j);
    }
  }

  lemma NoBoxNoLayout(data: seq<byte>, walked: seq<nat>, position: nat)
    requires Walked(data, walked, position) && position + 8 <= |data|
    requires var (size, header) := Header(data, position); size < header || position + size > |data|
    ensures !IsFaststart(data)
  {
    if IsFaststart(data) {
      var starts, i: nat, j: nat :|
        IsLayout(data, starts, 0) && FirstOf(data, starts, MOOV, i) && FirstOf(data, starts, MDAT, j) && i < j;
      LayoutExtendsWalk(data, walked, position, starts);
    }
  }

  /** The walk stands at `position`, past these boxes, with their first positions recorded. */
  ghost predicate Walking(data: seq<byte>, walked: seq<nat>, positions: map<Kind, nat>, position: nat) {
    position <= |data| && Walked(data, walked, position) && Firsts(data, walked, positions)
  }

  lemma WalkOn(data: seq<byte>, walked: seq<nat>, positions: map<Kind, nat>, position: nat, end: nat)
    requires Walking(data, walked, positions, position) && IsBox(data, position, end)
    ensures
      var kind := KindAt(data, position);
      Walking(data, walked + [position], if kind in positions then positions else positions[kind := position], end)
  {
    assert (walked + [position])[..|walked|] == walked;
    FirstsGrow(data, walked, positions, position);
  }

  lemma WalkEnds(data: seq<byte>, walked: seq<nat>, positions: map<Kind, nat>, position: nat)
    requires Walking(data, walked, positions, position) && |data| < position + 8
    ensures (MOOV in positions && MDAT in positions && positions[MOOV] < positions[MDAT]) <==> IsFaststart(data)
  {
    WalkedIsPrefix(data, walked, position, []);
    assert walked + [] == walked;
    PositionsDecide(data, walked, positions);
  }

  method Faststart(data: seq<byte>) returns (r: bool)
    ensures r <==> IsFaststart(data)
  {
    var positions: map<Kind, nat>, position := map[], 0;
    ghost var walked: seq<nat> := [];
    while position + 8 <= |data|
      invariant Walking(data, walked, positions, position)
      decreases |data| - position
    {
      var (size, header) := Header(data, position);
      var kind := KindAt(data, position);
      if size < header || position + size > |data| {
        NoBoxNoLayout(data, walked, position);
        return false;
      }
      WalkOn(data, walked, positions, position, position + size);
      if kind !in positions {
        positions := positions[kind := position];
      }
      walked, position := walked + [position], position + size;
    }
    WalkEnds(data, walked, positions, position);
    return MOOV in positions && MDAT in positions && positions[MOOV] < positions[MDAT];
  }

  /** A file whose boxes lead to a 64-bit size cut off by the end of the file fails, whatever bytes are left of it. */
  lemma TruncatedSizeIsNotFaststart(data: seq<byte>, walked: seq<nat>, position: nat)
    requires Walked(data, walked, position) && position + 8 <= |data| < position + 16
    requires BigEndian(data[position..position + 4]) == 1
    ensures !IsFaststart(data)
  {
    NoBoxNoLayout(data, walked, position);
  }

  // ----- the same files, written box by box

  /** How a box states its size: in 32 bits, in 64 bits, or as the rest of the file. */
  datatype Form = Short | Long | Rest

  datatype Box = Box(kind: Kind, body: seq<byte>, form: Form)

  predicate Fits(b: Box) {
    && |b.kind| == 4
    && (b.form.Short? ==> 8 + |b.body| < Range(4))
    && (b.form.Long? ==> 16 + |b.body| < Range(8))
  }

  function WriteBox(b: Box): seq<byte> {
    match b.form
    case Short => ToBytes(8 + |b.body|, 4) + b.kind + b.body
    case Long => ToBytes(1, 4) + b.kind + ToBytes(16 + |b.body|, 8) + b.body
    case Rest => ToBytes(0, 4) + b.kind + b.body
  }

  function Written(boxes: seq<Box>, tail: seq<byte>): seq<byte> {
    if boxes == [] then tail else WriteBox(boxes[0]) + Written(boxes[1..], tail)
  }

  /** Only the last box may be the rest of the file; what is left over is too short for a header. */
  predicate Writable(boxes: seq<Box>, tail: seq<byte>) {
    if boxes == [] then |tail| < 8
    else Fits(boxes[0]) && (boxes[0].form.Rest? ==> |boxes| == 1 && tail == []) && Writable(boxes[1..], tail)
  }

  lemma SizeFieldReads(n: nat)
    requires n < Range(4)
    ensures BigEndian(ToBytes(n, 4)) == n
  {
    ReadBack(n, 4);
  }

  lemma Inside(before: seq<byte>, x: seq<byte>, after: seq<byte>, i: nat, j: nat)
    requires i <= j <= |x|
    ensures (before + x + after)[|before| + i..|before| + j] == x[i..j]
  {
  }

  /** A written box is read as the box it is, wherever it stands. */
  lemma HeaderOfWritten(before: seq<byte>, b: Box, after: seq<byte>)
    requires Fits(b) && (b.form.Rest? ==> after == [])
    ensures
      var data, position := before + WriteBox(b) + after, |before|;
      && IsBox(data, position, position + |WriteBox(b)|) && Header(data, position).0 == |WriteBox(b)|
      && KindAt(data, position) == b.kind
  {
    var data, position := before + WriteBox(b) + after, |before|;
    var written := WriteBox(b);
    Inside(before, written, after, 0, 4);
    Inside(before, written, after, 4, 8);
    assert written[4..8] == b.kind;
    var n := match b.form case Short => 8 + |b.body| case Long => 1 case Rest => 0;
    assert written[0..4] == ToBytes(n, 4);
    assert Range(0) == 1 && Range(1) == 256 && Range(2) == 0x1_0000 && Range(3) == 0x100_0000;
    SizeFieldReads(n);
    if b.form.Long? {
      Inside(before, written, after, 8, 16);
      assert written[8..16] == ToBytes(16 + |b.body|, 8);
      ReadBack(16 + |b.body|, 8);
    }
  }

  /** The boxes' kinds stand at their starts. */
  predicate KindsAt(data: seq<byte>, starts: seq<nat>, boxes: seq<Box>) {
    |starts| == |boxes|
    && forall i :: 0 <= i < |boxes| ==> starts[i] + 8 <= |data| && KindAt(data, starts[i]) == boxes[i].kind
  }

  lemma FirstWritten(data: seq<byte>, position: nat, boxes: seq<Box>, tail: seq<byte>) returns (end: nat)
    requires Writable(boxes, tail) && boxes != [] && position <= |data| && data[position..] == Written(boxes, tail)
    ensures end == position + |WriteBox(boxes[0])| && IsBox(data, position, end)
    ensures KindAt(data, position) == boxes[0].kind && data[end..] == Written(boxes[1..], tail)
  {
    var first, rest := WriteBox(boxes[0]), Written(boxes[1..], tail);
    end := position + |first|;
    assert data == data[..position] + (first + rest);
    assert data == data[..position] + first + rest;
    HeaderOfWritten(data[..position], boxes[0], rest);
    assert (first + rest)[|first|..] == rest;
    assert data[end..] == data[position..][|first|..];
  }

  lemma LayoutOneMore(data: seq<byte>, starts: seq<nat>, position: nat, end: nat)
    requires IsBox(data, position, end) && IsLayout(data, starts, end)
    ensures IsLayout(data, [position] + starts, position)
  {
    assert ([position] + starts)[1..] == starts;
  }

  lemma KindsOneMore(data: seq<byte>, starts: seq<nat>, boxes: seq<Box>, position: nat)
    requires boxes != [] && KindsAt(data, starts, boxes[1..])
    requires position + 8 <= |data| && KindAt(data, position) == boxes[0].kind
    ensures KindsAt(data, [position] + starts, boxes)
  {
    var more := [position] + starts;
    assert forall i :: 0 < i < |boxes| ==> more[i] == starts[i - 1] && boxes[i] == boxes[1..][i - 1];
  }

  lemma {:induction false} WrittenIsLayout(data: seq<byte>, position: nat, boxes: seq<Box>, tail: seq<byte>)
    returns (starts: seq<nat>)
    requires Writable(boxes, tail) && position <= |data| && data[position..] == Written(boxes, tail)
    ensures IsLayout(data, starts, position) && KindsAt(data, starts, boxes)
    decreases |boxes|
  {
    if boxes == [] {
      starts := [];
    } else {
      var end := FirstWritten(data, position, boxes, tail);
      var rest := WrittenIsLayout(data, end, boxes[1..], tail);
      LayoutOneMore(data, rest, position, end);
      KindsOneMore(data, rest, boxes, position);
      starts := [position] + rest;
    }
  }

  /** The box that is read at a position. */
  function BoxAt(data: seq<byte>, position: nat, end: nat): Box
    requires IsBox(data, position, end)
  {
    var size := BigEndian(data[position..position + 4]);
    Box(KindAt(data, position), data[position + Header(data, position).1..end],
        if size == 1 then Long else if size == 0 then Rest else Short)
  }

  lemma Split(data: seq<byte>, from: nat, at: nat, to: nat)
    requires from <= at <= to <= |data|
    ensures data[from..to] == data[from..at] + data[at..to]
  {
  }

  lemma LongFields(data: seq<byte>, position: nat, end: nat)
    requires IsBox(data, position, end) && BigEndian(data[position..position + 4]) == 1
    ensures end == position + Header(data, position).0 && position + 16 <= end
    ensures data[position..position + 4] == ToBytes(1, 4)
    ensures data[position + 8..position + 16] == ToBytes(end - position, 8) && end - position < Range(8)
  {
    WriteBack(data[position..position + 4]);
    WriteBack(data[position + 8..position + 16]);
  }

  lemma SplitLong(data: seq<byte>, position: nat, end: nat)
    requires position + 16 <= end <= |data|
    ensures data[position..end] ==
      data[position..position + 4] + data[position + 4..position + 8] + data[position + 8..position + 16]
      + data[position + 16..end]
  {
  }

  lemma LongIsWritten(data: seq<byte>, position: nat, end: nat)
    requires IsBox(data, position, end) && BigEndian(data[position..position + 4]) == 1
    ensures Fits(BoxAt(data, position, end)) && WriteBox(BoxAt(data, position, end)) == data[position..end]
  {
    LongFields(data, position, end);
    SplitLong(data, position, end);
  }

  lemma ReadIsWritten(data: seq<byte>, position: nat, end: nat)
    requires IsBox(data, position, end)
    ensures Fits(BoxAt(data, position, end)) && WriteBox(BoxAt(data, position, end)) == data[position..end]
    ensures BoxAt(data, position, end).form.Rest? ==> end == |data|
  {
    if BigEndian(data[position..position + 4]) == 1 {
      LongIsWritten(data, position, end);
    } else {
      WriteBack(data[position..position + 4]);
      Split(data, position, position + 4, end);
      Split(data, position + 4, position + 8, end);
    }
  }

  lemma RestIsAll(boxes: seq<Box>, tail: seq<byte>)
    requires Writable(boxes, tail) && Written(boxes, tail) == []
    ensures boxes == [] && tail == []
  {
  }

  lemma {:induction false} LayoutIsWritten(data: seq<byte>, starts: seq<nat>, position: nat)
    returns (boxes: seq<Box>, tail: seq<byte>)
    requires position <= |data| && IsLayout(data, starts, position)
    ensures Writable(boxes, tail) && data[position..] == Written(boxes, tail)
    decreases |starts|
  {
    if starts == [] {
      boxes, tail := [], data[position..];
    } else {
      var end := position + Header(data, position).0;
      var b := BoxAt(data, position, end);
      var more, left := LayoutIsWritten(data, starts[1..], end);
      ReadIsWritten(data, position, end);
      boxes, tail := [b] + more, left;
      assert boxes[1..] == more;
      assert data[position..] == data[position..end] + data[end..];
      if b.form.Rest? {
        RestIsAll(more, left);
      }
    }
  }

  predicate FirstBox(boxes: seq<Box>, kind: Kind, i: nat) {
    i < |boxes| && boxes[i].kind == kind && forall j :: 0 <= j < i ==> boxes[j].kind != kind
  }

  /** The letters "moov" and "mdat". */
  ghost predicate MoovBeforeMdat(boxes: seq<Box>) {
    exists i: nat, j: nat ::
      FirstBox(boxes, [0x6d, 0x6f, 0x6f, 0x76], i) && FirstBox(boxes, [0x6d, 0x64, 0x61, 0x74], j) && i < j
  }

  lemma WrittenIsFaststart(boxes: seq<Box>, tail: seq<byte>)
    requires Writable(boxes, tail)
    ensures IsFaststart(Written(boxes, tail)) <==> MoovBeforeMdat(boxes)
  {
    var data := Written(boxes, tail);
    assert data[0..] == data;
    var starts := WrittenIsLayout(data, 0, boxes, tail);
    assert forall kind, i: nat :: FirstOf(data, starts, kind, i) <==> FirstBox(boxes, kind, i);
    if IsFaststart(data) {
      var other, i: nat, j: nat :|
        IsLayout(data, other, 0) && FirstOf(data, other, MOOV, i) && FirstOf(data, other, MDAT, j) && i < j;
      LayoutIsUnique(data, starts, other, 0);
    }
  }

  /** A file passes exactly when it can be written as boxes whose first movie header precedes their first media data. */
  lemma FaststartIffWritten(data: seq<byte>)
    ensures IsFaststart(data) <==>
      exists boxes, tail :: Writable(boxes, tail) && data == Written(boxes, tail) && MoovBeforeMdat(boxes)
  {
    if IsFaststart(data) {
      var starts, i: nat, j: nat :|
        IsLayout(data, starts, 0) && FirstOf(data, starts, MOOV, i) && FirstOf(data, starts, MDAT, j) && i < j;
      var boxes, tail := LayoutIsWritten(data, starts, 0);
      assert data[0..] == data;
      WrittenIsFaststart(boxes, tail);
    }
    if boxes, tail :| Writable(boxes, tail) && data == Written(boxes, tail) && MoovBeforeMdat(boxes) {
      WrittenIsFaststart(boxes, tail);
    }
  }
}
