/**
Two JPEG marker walkers that read a picture's dimensions: the strict one of the admin walkthrough and
the tolerant one of the admin tour. Marker syntax as in section B.1.1 of ITU-T T.81: any number of
0xFF fill bytes, a marker code, and for most markers a two-byte length that counts itself.
*/
module JpegMarkers {
  import opened Wrappers
  import opened Bytes

  /** `Malformed` and `Missing` are refusals; the others are the exceptions Python raises. */
  datatype Failure = Malformed | Missing | InvalidSegment | IndexError | StructError

  type Dimensions = (nat, nat)

  predicate Standalone(marker: byte) {
    marker == 0xD8 || marker == 0xD9 || 0xD0 <= marker <= 0xD7
  }

  predicate StartOfFrame(marker: byte) {
    0xC0 <= marker <= 0xCF && marker != 0xC4 && marker != 0xC8 && marker != 0xCC
  }

  /** The first position from `p` on that is not a fill byte, or the end of the data. */
  function AfterFill(data: seq<byte>, p: nat): (r: nat)
    requires p <= |data|
    ensures p <= r <= |data|
    ensures forall i :: p <= i < r ==> data[i] == 0xFF
    ensures r < |data| ==> data[r] != 0xFF
    decreases |data| - p
  {
    if p == |data| || data[p] != 0xFF then p else AfterFill(data, p + 1)
  }

  function Length(data: seq<byte>, p: nat): nat {
    BigEndian(Slice(data, p, p + 2))
  }

  /** Width and height of a frame header whose length field is at `p`. */
  function FrameSize(data: seq<byte>, p: nat): Option<Dimensions> {
    var b := Slice(data, p + 3, p + 7);
    if |b| == 4 then Some((BigEndian(b[2..4]), BigEndian(b[0..2]))) else None
  }

  // ----- the marker chain

  /** A marker starts at `p`: fill bytes and then a code. */
  predicate MarkerAt(data: seq<byte>, p: nat) {
    p < |data| && data[p] == 0xFF && AfterFill(data, p) < |data|
  }

  function Code(data: seq<byte>, p: nat): byte
    requires MarkerAt(data, p)
  {
    data[AfterFill(data, p)]
  }

  predicate HasLength(data: seq<byte>, p: nat)
    requires MarkerAt(data, p)
  {
    !Standalone(Code(data, p))
  }

  function SegmentLength(data: seq<byte>, p: nat): nat
    requires MarkerAt(data, p)
  {
    if HasLength(data, p) then Length(data, AfterFill(data, p) + 1) else 0
  }

  predicate IsFrame(data: seq<byte>, p: nat) {
    MarkerAt(data, p) && StartOfFrame(Code(data, p))
  }

  /** A segment that is not a frame runs from `p` to `q`. */
  predicate Segment(data: seq<byte>, p: nat, q: nat) {
    MarkerAt(data, p) && !IsFrame(data, p) && q == AfterFill(data, p) + 1 + SegmentLength(data, p)
  }

  /** A segment whose length field covers at least itself. */
  predicate SoundSegment(data: seq<byte>, p: nat, q: nat) {
    Segment(data, p, q) && (HasLength(data, p) ==> SegmentLength(data, p) >= 2)
  }

  /** The tolerant walk also steps over single bytes that start no marker. */
  predicate LooseSegment(data: seq<byte>, p: nat, q: nat) {
    (p < |data| && data[p] != 0xFF && q == p + 1) || SoundSegment(data, p, q)
  }

  type Step = (nat, nat) -> bool

  function Strict(data: seq<byte>): Step { (p: nat, q: nat) => Segment(data, p, q) }

  function Sound(data: seq<byte>): Step { (p: nat, q: nat) => SoundSegment(data, p, q) }

  function Loose(data: seq<byte>): Step { (p: nat, q: nat) => LooseSegment(data, p, q) }

  /** Steps end to end from just after the start-of-image marker up to `p`. */
  predicate Path(step: Step, starts: seq<nat>, p: nat) {
    if starts == [] then p == 2
    else Path(step, starts[..|starts| - 1], starts[|starts| - 1]) && step(starts[|starts| - 1], p)
  }

  /** The path leads to its first start of frame, which gives these dimensions. */
  predicate LeadsTo(data: seq<byte>, step: Step, starts: seq<nat>, p: nat, d: Dimensions) {
    && Path(step, starts, p) && IsFrame(data, p)
    && FrameSize(data, AfterFill(data, p) + 1) == Some(d) && d.0 != 0 && d.1 != 0
  }

  ghost predicate Finds(data: seq<byte>, step: Step, d: Dimensions) {
    exists starts, p :: LeadsTo(data, step, starts, p, d)
  }

  // ----- paths are deterministic and end at the frame

  ghost predicate Deterministic(step: Step) {
    forall p, q, r :: step(p, q) && step(p, r) ==> q == r
  }

  /** Of two paths, the shorter ends where the longer has been. */
  lemma {:induction false} PathPrefix(step: Step, a: seq<nat>, p: nat, b: seq<nat>, q: nat)
    requires Deterministic(step) && Path(step, a, p) && Path(step, b, q) && |a| <= |b|
    ensures if |a| == |b| then a == b && p == q else b[|a|] == p
  {
    if |b| > 0 {
      var init := b[..|b| - 1];
      if |a| < |b| {
        PathPrefix(step, a, p, init, b[|b| - 1]);
      } else {
        PathPrefix(step, a[..|a| - 1], a[|a| - 1], init, b[|b| - 1]);
      }
    }
  }

  lemma {:induction false} PathGoesThrough(step: Step, starts: seq<nat>, p: nat, k: nat)
    requires Path(step, starts, p) && k < |starts|
    ensures exists q :: step(starts[k], q)
  {
    if k < |starts| - 1 {
      PathGoesThrough(step, starts[..|starts| - 1], starts[|starts| - 1], k);
    }
  }

  /** A path that cannot go on is the only path to a place where none can go on. */
  lemma PathEndsOnce(step: Step, a: seq<nat>, p: nat, b: seq<nat>, q: nat)
    requires Deterministic(step) && Path(step, a, p) && Path(step, b, q)
    requires (forall r :: !step(p, r)) && (forall r :: !step(q, r))
    ensures a == b && p == q
  {
    if |a| <= |b| {
      PathPrefix(step, a, p, b, q);
      if |a| < |b| { PathGoesThrough(step, b, q, |a|); }
    } else {
      PathPrefix(step, b, q, a, p);
      PathGoesThrough(step, a, p, |b|);
    }
  }

  lemma StepsAreDeterministic(data: seq<byte>)
    ensures Deterministic(Strict(data)) && Deterministic(Sound(data)) && Deterministic(Loose(data))
  {
  }

  lemma FramesEndPaths(data: seq<byte>, p: nat)
    requires IsFrame(data, p)
    ensures forall q :: !Strict(data)(p, q) && !Sound(data)(p, q) && !Loose(data)(p, q)
  {
  }

  /** Where the walk is stuck, either a good frame is found right there or there is none. */
  lemma StuckDecides(data: seq<byte>, step: Step, here: seq<nat>, position: nat, d: Dimensions)
    requires Deterministic(step) && Path(step, here, position) && (forall q :: !step(position, q))
    requires forall p, q :: IsFrame(data, p) ==> !step(p, q)
    ensures Finds(data, step, d) <==> LeadsTo(data, step, here, position, d)
  {
    if starts, p :| LeadsTo(data, step, starts, p, d) {
      PathEndsOnce(step, here, position, starts, p);
    }
  }

  /** The verdict at the place where a walk ends. */
  ghost predicate Verdict(data: seq<byte>, step: Step, r: Result<Dimensions, Failure>) {
    && (r.Ok? ==> Finds(data, step, r.value))
    && (forall d :: Finds(data, step, d) ==> r == Ok(d))
  }

  lemma StuckWithoutFrame(data: seq<byte>, step: Step, here: seq<nat>, position: nat, failure: Failure)
    requires step == Strict(data) || step == Loose(data)
    requires Path(step, here, position) && !IsFrame(data, position) && (forall q :: !step(position, q))
    ensures Verdict(data, step, Err(failure))
  {
    StepsAreDeterministic(data);
    forall d
      ensures !Finds(data, step, d)
    {
      StuckDecides(data, step, here, position, d);
    }
  }

  function FrameResult(data: seq<byte>, p: nat): Result<Dimensions, Failure> {
    var size := FrameSize(data, p);
    if size.None? then Err(StructError)
    else if size.value.0 == 0 || size.value.1 == 0 then Err(Missing)
    else Ok(size.value)
  }

  lemma FramesEndAll(data: seq<byte>, step: Step)
    requires step == Strict(data) || step == Loose(data)
    ensures forall p, q :: IsFrame(data, p) ==> !step(p, q)
  {
    forall p | IsFrame(data, p)
      ensures forall q :: !step(p, q)
    {
      FramesEndPaths(data, p);
    }
  }

  lemma FrameDecides(data: seq<byte>, step: Step, here: seq<nat>, position: nat, d: Dimensions)
    requires step == Strict(data) || step == Loose(data)
    requires Path(step, here, position) && IsFrame(data, position)
    ensures Finds(data, step, d) <==> FrameResult(data, AfterFill(data, position) + 1) == Ok(d)
  {
    StepsAreDeterministic(data);
    FramesEndAll(data, step);
    StuckDecides(data, step, here, position, d);
  }

  lemma StuckAtFrame(data: seq<byte>, step: Step, here: seq<nat>, position: nat, r: Result<Dimensions, Failure>)
    requires step == Strict(data) || step == Loose(data)
    requires Path(step, here, position) && IsFrame(data, position)
    requires r == FrameResult(data, AfterFill(data, position) + 1)
    ensures Verdict(data, step, r)
  {
    forall d
      ensures Finds(data, step, d) <==> r == Ok(d)
    {
      FrameDecides(data, step, here, position, d);
    }
  }

  lemma PathGrows(step: Step, here: seq<nat>, position: nat, next: nat)
    requires Path(step, here, position) && step(position, next)
    ensures Path(step, here + [position], next)
  {
    assert (here + [position])[..|here|] == here;
  }

  // ----- the walkers

  /** `while data[p] == 0xFF: p += 1`, on in-range positions. */
  method SkipFill(data: seq<byte>, p: nat) returns (r: nat)
    requires p <= |data|
    ensures r == AfterFill(data, p)
  {
    r := p;
    while r < |data| && data[r] == 0xFF
      invariant p <= r <= |data|
      invariant AfterFill(data, p) == AfterFill(data, r)
    {
      r := r + 1;
    }
  }

  lemma StrictNoMarker(data: seq<byte>, here: seq<nat>, position: nat, failure: Failure)
    requires Path(Strict(data), here, position) && !MarkerAt(data, position)
    ensures Verdict(data, Strict(data), Err(failure))
  {
    StuckWithoutFrame(data, Strict(data), here, position, failure);
  }

  lemma StrictSegment(data: seq<byte>, here: seq<nat>, position: nat)
    requires Path(Strict(data), here, position) && MarkerAt(data, position) && !IsFrame(data, position)
    ensures Path(Strict(data), here + [position], AfterFill(data, position) + 1 + SegmentLength(data, position))
  {
    PathGrows(Strict(data), here, position, AfterFill(data, position) + 1 + SegmentLength(data, position));
  }

  lemma LooseNoMarker(data: seq<byte>, here: seq<nat>, position: nat, failure: Failure)
    requires Path(Loose(data), here, position)
    requires position >= |data| || (data[position] == 0xFF && !MarkerAt(data, position))
    ensures Verdict(data, Loose(data), Err(failure))
  {
    StuckWithoutFrame(data, Loose(data), here, position, failure);
  }

  lemma LooseShortSegment(data: seq<byte>, here: seq<nat>, position: nat)
    requires Path(Loose(data), here, position) && MarkerAt(data, position) && !IsFrame(data, position)
    requires HasLength(data, position) && SegmentLength(data, position) < 2
    ensures Verdict(data, Loose(data), Err(InvalidSegment))
  {
    StuckWithoutFrame(data, Loose(data), here, position, InvalidSegment);
  }

  lemma LooseLongSegment(data: seq<byte>, here: seq<nat>, position: nat)
    requires Path(Loose(data), here, position) && MarkerAt(data, position) && !IsFrame(data, position)
    requires HasLength(data, position) ==> SegmentLength(data, position) >= 2
    ensures Path(Loose(data), here + [position], AfterFill(data, position) + 1 + SegmentLength(data, position))
  {
    PathGrows(Loose(data), here, position, AfterFill(data, position) + 1 + SegmentLength(data, position));
  }

  lemma LooseSkip(data: seq<byte>, here: seq<nat>, position: nat)
    requires Path(Loose(data), here, position) && position < |data| && data[position] != 0xFF
    ensures Path(Loose(data), here + [position], position + 1)
  {
    PathGrows(Loose(data), here, position, position + 1);
  }

  /** One marker of a walk: on to a position, or done with a result. */
  datatype Move = On(next: nat) | Done(r: Result<Dimensions, Failure>)

  /** What the walkers do at a marker code; only the tolerant one minds a length below 2. */
  function MoveAt(data: seq<byte>, code: nat, tolerant: bool): Move
    requires code < |data|
  {
    var marker, p := data[code], code + 1;
    if Standalone(marker) then On(p)
    else if StartOfFrame(marker) then Done(FrameResult(data, p))
    else if tolerant && Length(data, p) < 2 then Done(Err(InvalidSegment))
    else On(p + Length(data, p))
  }

  /** One marker: skip the fill bytes, then look at the code. */
  method ReadMarker(data: seq<byte>, position: nat, tolerant: bool) returns (move: Move)
    requires position < |data| && data[position] == 0xFF
    ensures move ==
      if MarkerAt(data, position) then MoveAt(data, AfterFill(data, position), tolerant) else Done(Err(IndexError))
  {
    var code := SkipFill(data, position);
    if code == |data| {
      return Done(Err(IndexError));
    }
    var marker, p := data[code], code + 1;
    if Standalone(marker) {
      return On(p);
    }
    var length := Length(data, p);
    if StartOfFrame(marker) {
      return Done(FrameResult(data, p));
    }
    if tolerant && length < 2 {
      return Done(Err(InvalidSegment));
    }
    return On(p + length);
  }

  /** A walk ends at a frame, with what the frame says, or (the tolerant one) at a length below 2. */
  lemma MoveIsDone(data: seq<byte>, position: nat, tolerant: bool)
    requires MarkerAt(data, position) && MoveAt(data, AfterFill(data, position), tolerant).Done?
    ensures
      var code := AfterFill(data, position);
      var r := MoveAt(data, code, tolerant).r;
      if IsFrame(data, position) then r == FrameResult(data, code + 1)
      else tolerant && r == Err(InvalidSegment) && HasLength(data, position) && SegmentLength(data, position) < 2
  {
  }

  /** Otherwise it goes on past the segment. */
  lemma MoveGoesOn(data: seq<byte>, position: nat, tolerant: bool)
    requires MarkerAt(data, position) && MoveAt(data, AfterFill(data, position), tolerant).On?
    ensures !IsFrame(data, position)
    ensures MoveAt(data, AfterFill(data, position), tolerant).next ==
            AfterFill(data, position) + 1 + SegmentLength(data, position) > position
    ensures tolerant && HasLength(data, position) ==> SegmentLength(data, position) >= 2
  {
  }

  lemma StrictGoesOn(data: seq<byte>, here: seq<nat>, position: nat, next: nat)
    requires Path(Strict(data), here, position) && MarkerAt(data, position) && !IsFrame(data, position)
    requires next == AfterFill(data, position) + 1 + SegmentLength(data, position)
    ensures Path(Strict(data), here + [position], next)
  {
    StrictSegment(data, here, position);
  }

  lemma LooseGoesOn(data: seq<byte>, here: seq<nat>, position: nat, next: nat)
    requires Path(Loose(data), here, position) && MarkerAt(data, position) && !IsFrame(data, position)
    requires HasLength(data, position) ==> SegmentLength(data, position) >= 2
    requires next == AfterFill(data, position) + 1 + SegmentLength(data, position)
    ensures Path(Loose(data), here + [position], next)
  {
    LooseLongSegment(data, here, position);
  }

  /** The JPEG branch of `screenshot_info`. */
  method ScreenshotInfo(data: seq<byte>) returns (r: Result<Dimensions, Failure>)
    requires |data| >= 2
    ensures Verdict(data, Strict(data), r)
  {
    var position := 2;
    ghost var here: seq<nat> := [];
    while position < |data|
      invariant position >= 2 && Path(Strict(data), here, position)
      decreases |data| - position
    {
      if data[position] != 0xFF {
        StrictNoMarker(data, here, position, Malformed);
        return Err(Malformed);
      }
      var move := ReadMarker(data, position, false);
      if !MarkerAt(data, position) {
        StrictNoMarker(data, here, position, IndexError);
      } else if move.Done? {
        MoveIsDone(data, position, false);
        StuckAtFrame(data, Strict(data), here, position, move.r);
      } else {
        MoveGoesOn(data, position, false);
        StrictGoesOn(data, here, position, move.next);
      }
      if move.Done? {
        return move.r;
      }
      here, position := here + [position], move.next;
    }
    StrictNoMarker(data, here, position, Missing);
    return Err(Missing);
  }

  /** The JPEG branch of `image_info`. */
  method ImageInfo(data: seq<byte>) returns (r: Result<Dimensions, Failure>)
    requires |data| >= 2
    ensures Verdict(data, Loose(data), r)
  {
    var position := 2;
    ghost var here: seq<nat> := [];
    while position < |data|
      invariant position >= 2 && Path(Loose(data), here, position)
      decreases |data| - position
    {
      if data[position] != 0xFF {
        LooseSkip(data, here, position);
        here, position := here + [position], position + 1;
        continue;
      }
      var move := ReadMarker(data, position, true);
      if !MarkerAt(data, position) {
        LooseNoMarker(data, here, position, IndexError);
      } else if move.Done? {
        MoveIsDone(data, position, true);
        if IsFrame(data, position) {
          StuckAtFrame(data, Loose(data), here, position, move.r);
        } else {
          LooseShortSegment(data, here, position);
        }
      } else {
        MoveGoesOn(data, position, true);
        LooseGoesOn(data, here, position, move.next);
      }
      if move.Done? {
        return move.r;
      }
      here, position := here + [position], move.next;
    }
    LooseNoMarker(data, here, position, Missing);
    return Err(Missing);
  }

  // ----- how the walkers relate

  lemma {:induction false} SoundPathsAreLoose(data: seq<byte>, starts: seq<nat>, p: nat)
    requires Path(Sound(data), starts, p)
    ensures Path(Loose(data), starts, p) && Path(Strict(data), starts, p)
  {
    if starts != [] {
      SoundPathsAreLoose(data, starts[..|starts| - 1], starts[|starts| - 1]);
    }
  }

  /** A loose path inside a strict one has only taken sound steps. */
  lemma {:induction false} LooseInsideStrict(data: seq<byte>, a: seq<nat>, p: nat, b: seq<nat>, q: nat)
    requires Path(Strict(data), a, p) && Path(Loose(data), b, q) && |b| <= |a|
    ensures Path(Sound(data), b, q) && Path(Strict(data), b, q)
  {
    if b != [] {
      var init, last := b[..|b| - 1], b[|b| - 1];
      LooseInsideStrict(data, a, p, init, last);
      StepsAreDeterministic(data);
      PathPrefix(Strict(data), init, last, a, p);
      PathGoesThrough(Strict(data), a, p, |init|);
    }
  }

  /** The beginning of a path, of a given length, is a path. */
  lemma {:induction false} Ancestor(data: seq<byte>, b: seq<nat>, q: nat, n: nat) returns (c: seq<nat>, r: nat)
    requires Path(Loose(data), b, q) && n <= |b|
    ensures Path(Loose(data), c, r) && |c| == n
  {
    if n == |b| {
      c, r := b, q;
    } else {
      c, r := Ancestor(data, b[..|b| - 1], b[|b| - 1], n);
    }
  }

  lemma LooseEndsAtStrictFrame(data: seq<byte>, a: seq<nat>, p: nat, b: seq<nat>, q: nat)
    requires Path(Strict(data), a, p) && IsFrame(data, p)
    requires Path(Loose(data), b, q) && IsFrame(data, q)
    ensures p == q && Path(Sound(data), a, p)
  {
    StepsAreDeterministic(data);
    FramesEndPaths(data, p);
    FramesEndPaths(data, q);
    if |b| <= |a| {
      LooseInsideStrict(data, a, p, b, q);
      PathEndsOnce(Strict(data), a, p, b, q);
    } else {
      var c, r := Ancestor(data, b, q, |a|);
      LooseInsideStrict(data, a, p, c, r);
      PathPrefix(Strict(data), a, p, c, r);
      PathPrefix(Loose(data), c, r, b, q);
      PathGoesThrough(Loose(data), b, q, |a|);
    }
  }

  /**
  When the strict walker finds dimensions along `starts`, the tolerant walker finds dimensions if
  and only if every segment passed has length at least 2, and then the same ones.
  */
  lemma WalkersAgreeIff(data: seq<byte>, starts: seq<nat>, p: nat, d: Dimensions)
    requires LeadsTo(data, Strict(data), starts, p, d)
    ensures Path(Sound(data), starts, p) <==> Finds(data, Loose(data), d)
    ensures forall e :: Finds(data, Loose(data), e) ==> e == d
  {
    if Path(Sound(data), starts, p) {
      SoundPathsAreLoose(data, starts, p);
      assert LeadsTo(data, Loose(data), starts, p, d);
    }
    forall e | Finds(data, Loose(data), e)
      ensures e == d && Path(Sound(data), starts, p)
    {
      var b, q :| LeadsTo(data, Loose(data), b, q, e);
      LooseEndsAtStrictFrame(data, starts, p, b, q);
    }
  }

  lemma TwoBytes(b: seq<byte>)
    requires |b| == 2
    ensures BigEndian(b) == 256 * b[0] as nat + b[1] as nat
  {
    assert b[..1][..0] == [];
    assert BigEndian(b[..1]) == b[0] as nat;
  }

  /** A frame header of one line and two columns. */
  lemma SampleFrameSize(data: seq<byte>, p: nat)
    requires p + 7 <= |data| && data[p + 3] == 0 && data[p + 4] == 1 && data[p + 5] == 0 && data[p + 6] == 2
    ensures FrameSize(data, p) == Some((2, 1))
  {
    var b := Slice(data, p + 3, p + 7);
    TwoBytes(b[0..2]);
    TwoBytes(b[2..4]);
  }

  /** Bytes between segments stop the strict walker; the tolerant one looks past them. */
  lemma TolerantSeesMore()
    ensures
      var data: seq<byte> := [0xFF, 0xD8, 0x00, 0xFF, 0xC0, 0, 11, 8, 0, 1, 0, 2];
      Finds(data, Loose(data), (2, 1)) && forall d :: !Finds(data, Strict(data), d)
  {
    var data: seq<byte> := [0xFF, 0xD8, 0x00, 0xFF, 0xC0, 0, 11, 8, 0, 1, 0, 2];
    PathGrows(Loose(data), [], 2, 3);
    assert AfterFill(data, 3) == 4;
    SampleFrameSize(data, 5);
    assert LeadsTo(data, Loose(data), [2], 3, (2, 1));
    StuckWithoutFrame(data, Strict(data), [], 2, Malformed);
  }
}
