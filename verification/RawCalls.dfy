/**
What the identifiers in the evidence say of the frames that arrived. The checks compare cleaned
identifiers; two different ones can clean alike, and then one cleaned call may be two calls.
*/
module RawCalls {
  import opened Wrappers
  import opened JsonValues
  import opened NativeRecords
  import opened Sanitizer
  import opened ApprovalProtocol
  import opened ApprovalSafety
  import opened NativeSettings
  import opened Evidence

  ghost predicate KeepsFramesAt(c: Cleaner) {
    && KeepsKey(c, "tool_call_id") && KeepsKey(c, "meta") && KeepsKey(c, "cls") && KeepsKey(c, "role")
    && KeepsWord(c, "tool") && KeepsSubstance(c)
  }

  /**
  What the regular expressions leave alone unless a secret happens to be part of it: four field names
  and one word. Nothing else becomes any of them, and text is never rewritten to nothing.
  */
  ghost predicate KeepsFrames(n: Settings) {
    forall known: set<string> :: KeepsFramesAt(CleanerAt(n, known))
  }

  // ----- one frame

  lemma CleanedMeta(c: Cleaner, data: Json)
    requires UniqueThroughout(data) && KeepsKey(c, "meta")
    ensures MetaOf(Clean(c, data)) == Clean(c, MetaOf(data)) && UniqueThroughout(MetaOf(data))
  {
    CleanedField(c, data, "meta");
    FieldIsUnique(data, "meta");
  }

  /** The identifier read off a cleaned frame is the frame's own, cleaned. */
  lemma CleanedCallId(c: Cleaner, data: Json)
    requires UniqueThroughout(data) && KeepsFramesAt(c)
    ensures CallIdIn(Clean(c, data)) == Clean(c, CallIdIn(data))
    ensures Truthy(CallIdIn(Clean(c, data))) <==> Truthy(CallIdIn(data))
  {
    CleanedField(c, data, "tool_call_id");
    CleanedTruth(c, Field(data, "tool_call_id"));
    CleanedMeta(c, data);
    CleanedField(c, MetaOf(data), "tool_call_id");
    CleanedTruth(c, CallIdIn(data));
  }

  lemma CleanedToolRow(c: Cleaner, kind: Kind, data: Json)
    requires UniqueThroughout(data) && KeepsFramesAt(c)
    ensures IsToolRowIn(kind, Clean(c, data)) <==> IsToolRowIn(kind, data)
  {
    CleanedField(c, data, "role");
    CleanedWord(c, Field(data, "role"), "tool");
  }

  function RawCallId(e: Event): Json { CallIdIn(e.raw) }

  /** The frame, as it arrived, shows a tool call. */
  predicate IsRawCall(e: Event) { IsToolRowIn(e.kind, e.raw) && Truthy(RawCallId(e)) }

  lemma RecordedCall(n: Settings, e: Event)
    requires KeepsFrames(n) && IsRecord(Native(n), e)
    ensures IsCall(e) <==> IsRawCall(e)
    ensures CallId(e) == Cleaned(n, e.known, RawCallId(e))
  {
    var c := CleanerAt(n, e.known);
    assert KeepsFramesAt(c);
    CleanedCallId(c, e.raw);
    CleanedToolRow(c, e.kind, e.raw);
  }

  // ----- a turn

  /** The turn, as it arrived, shows this call and no other. */
  ghost predicate SoleRawCall(row: Row, rawId: Json) {
    && (exists i :: 0 <= i < |row.events| && IsRawCall(row.events[i]))
    && (forall i :: 0 <= i < |row.events| && IsRawCall(row.events[i]) ==> RawCallId(row.events[i]) == rawId)
  }

  /** Nothing but one identifier is ever shown as this, whatever request identifiers are known by then. */
  ghost predicate Unambiguous(n: Settings, callId: Json) {
    forall x: Value, y: Value, d: set<string>, e: set<string> ::
      Truthy(x) && Truthy(y) && Cleaned(n, d, x) == callId && Cleaned(n, e, y) == callId ==> x == y
  }

  /** Whenever a turn shows this one call, the frames that arrived show one call too. */
  ghost predicate AlwaysOneRawCall(n: Settings, r: Reader, callId: Json) {
    forall row: Row :: AllRecords(Native(n), row.events) && SoleCall(r, row, callId) ==>
      exists rawId :: SoleRawCall(row, rawId)
  }

  /** A turn that shows one call holds a raw one, and all of its raw calls clean to the one shown. */
  lemma ShownCallsAreRaw(n: Settings, r: Reader, row: Row, callId: Json) returns (first: nat)
    requires KeepsFrames(n) && AllRecords(Native(n), row.events) && SoleCall(r, row, callId)
    ensures first < |row.events| && IsRawCall(row.events[first])
    ensures forall j :: 0 <= j < |row.events| && IsRawCall(row.events[j]) ==>
      Cleaned(n, row.events[j].known, RawCallId(row.events[j])) == callId
  {
    forall i | 0 <= i < |row.events|
      ensures IsCall(row.events[i]) <==> IsRawCall(row.events[i])
      ensures CallId(row.events[i]) == Cleaned(n, row.events[i].known, RawCallId(row.events[i]))
    {
      RecordedCall(n, row.events[i]);
    }
    first :| 0 <= first < |row.events| && IsCall(row.events[first]);
  }

  lemma RawCallIdIsUnique(data: Json)
    requires UniqueThroughout(data)
    ensures UniqueThroughout(CallIdIn(data))
  {
    FieldIsUnique(data, "tool_call_id");
    FieldIsUnique(data, "meta");
    FieldIsUnique(MetaOf(data), "tool_call_id");
  }

  lemma RawCallIsThis(n: Settings, e: Event, callId: Json, known: set<string>, rawId: Value)
    requires IsRecord(Native(n), e) && Unambiguous(n, callId)
    requires Truthy(RawCallId(e)) && Cleaned(n, e.known, RawCallId(e)) == callId
    requires Truthy(rawId) && Cleaned(n, known, rawId) == callId
    ensures RawCallId(e) == rawId
  {
    RawCallIdIsUnique(e.raw);
    var other: Value := RawCallId(e);
    assert Cleaned(n, e.known, other) == callId;
  }

  /** Only one identifier is shown as this one, so it is every raw call's. */
  lemma UnambiguousIsSole(n: Settings, r: Reader, row: Row, callId: Json, known: set<string>, rawId: Value)
    requires KeepsFrames(n) && AllRecords(Native(n), row.events) && SoleCall(r, row, callId)
    requires Unambiguous(n, callId) && Truthy(rawId) && Cleaned(n, known, rawId) == callId
    ensures SoleRawCall(row, rawId)
  {
    var first := ShownCallsAreRaw(n, r, row, callId);
    forall j | 0 <= j < |row.events| && IsRawCall(row.events[j])
      ensures RawCallId(row.events[j]) == rawId
    {
      RawCallIsThis(n, row.events[j], callId, known, rawId);
    }
  }

  lemma UnambiguousShowsOne(n: Settings, r: Reader, row: Row, callId: Json) returns (rawId: Value)
    requires KeepsFrames(n) && AllRecords(Native(n), row.events) && SoleCall(r, row, callId)
    requires Unambiguous(n, callId)
    ensures SoleRawCall(row, rawId)
  {
    var first := ShownCallsAreRaw(n, r, row, callId);
    assert IsRecord(Native(n), row.events[first]);
    RawCallIdIsUnique(row.events[first].raw);
    rawId := RawCallId(row.events[first]);
    UnambiguousIsSole(n, r, row, callId, row.events[first].known, rawId);
  }

  // ----- turns that tell two identifiers apart

  ghost predicate KeepsTraceAt(c: Cleaner, trace: string) {
    KeepsKey(c, "input_preview") && KeepsKey(c, "trace_id") && Clean(c, Str(trace)) == Str(trace)
  }

  /** Cleaning leaves an exact trace argument as it is, and in its place. */
  ghost predicate KeepsTrace(n: Settings, trace: string) {
    forall known: set<string> :: KeepsTraceAt(CleanerAt(n, known), trace)
  }

  function TraceInput(trace: string): Json { Obj([("trace_id", Str(trace))]) }

  lemma CleanedTraceInput(c: Cleaner, trace: string)
    requires KeepsTraceAt(c, trace)
    ensures Clean(c, TraceInput(trace)) == TraceInput(trace)
  {
    var fields := TraceInput(trace).fields;
    assert c.text("trace_id") == "trace_id";
    assert CleanFields(c, fields[1..], Put([], "trace_id", Str(trace))) == Put([], "trace_id", Str(trace));
  }

  /** The frame of a tool call, and nothing but its identifier and argument. */
  function CallFrame(x: Json, trace: string): Json {
    Obj([("tool_call_id", x), ("input_preview", TraceInput(trace))])
  }

  function TracedCall(n: Settings, known: set<string>, x: Json, trace: string): Event {
    Event(ToolCall, Cleaned(n, known, CallFrame(x, trace)), CallFrame(x, trace), known)
  }

  lemma CallFrameFields(x: Value, trace: string)
    ensures UniqueThroughout(CallFrame(x, trace)) && Field(CallFrame(x, trace), "tool_call_id") == x
    ensures Field(CallFrame(x, trace), "input_preview") == TraceInput(trace)
  {
    assert UniqueThroughout(TraceInput(trace));
    LookupAt(CallFrame(x, trace).fields, "input_preview", 1);
  }

  /** The frame arrived with call identifier `x`, is shown with `callId`, and carries the trace. */
  predicate ShowsTraced(n: Settings, r: Reader, e: Event, x: Json, callId: Json, trace: string) {
    && IsRecord(Native(n), e) && IsRawCall(e) && RawCallId(e) == x
    && IsCall(e) && CallId(e) == callId && CarriesTrace(r, e, trace)
  }

  lemma TracedCallCarries(n: Settings, r: Reader, known: set<string>, x: Value, trace: string)
    requires KeepsTrace(n, trace)
    ensures CarriesTrace(r, TracedCall(n, known, x, trace), trace)
  {
    var c := CleanerAt(n, known);
    CallFrameFields(x, trace);
    assert KeepsTraceAt(c, trace);
    CleanedField(c, CallFrame(x, trace), "input_preview");
    CleanedTraceInput(c, trace);
  }

  lemma TracedCallShows(n: Settings, r: Reader, known: set<string>, x: Value, trace: string)
    requires KeepsFrames(n) && KeepsTrace(n, trace) && Truthy(x)
    ensures ShowsTraced(n, r, TracedCall(n, known, x, trace), x, Cleaned(n, known, x), trace)
  {
    CallFrameFields(x, trace);
    RecordedCall(n, TracedCall(n, known, x, trace));
    TracedCallCarries(n, r, known, x, trace);
  }

  /** A turn of two calls with these identifiers. */
  function TwoCalls(n: Settings, d: set<string>, x: Json, e: set<string>, y: Json, trace: string): Row {
    Row(Phase(AllowPhase, "", trace, ""), [], [TracedCall(n, d, x, trace), TracedCall(n, e, y, trace)], [])
  }

  lemma TwoTracedCalls(n: Settings, r: Reader, row: Row, x: Json, y: Json, callId: Json)
    requires |row.events| == 2 && ShowsTraced(n, r, row.events[0], x, callId, row.phase.trace)
    requires ShowsTraced(n, r, row.events[1], y, callId, row.phase.trace)
    ensures AllRecords(Native(n), row.events) && SoleCall(r, row, callId)
  {
    assert IsCall(row.events[0]) && Traced(r, row.events[0], row.phase.trace);
    assert forall i :: 0 <= i < |row.events| && IsCall(row.events[i]) ==> i == 0 || i == 1;
  }

  lemma TwoRawCalls(n: Settings, r: Reader, row: Row, x: Json, y: Json, callId: Json, rawId: Json)
    requires |row.events| == 2 && ShowsTraced(n, r, row.events[0], x, callId, row.phase.trace)
    requires ShowsTraced(n, r, row.events[1], y, callId, row.phase.trace)
    requires SoleRawCall(row, rawId)
    ensures x == rawId && y == rawId
  {
    assert IsRawCall(row.events[0]) && IsRawCall(row.events[1]);
  }

  lemma TwoCallsShowOne(n: Settings, r: Reader, d: set<string>, x: Value, e: set<string>, y: Value, trace: string,
                        callId: Json)
    requires KeepsFrames(n) && KeepsTrace(n, trace) && Truthy(x) && Truthy(y)
    requires Cleaned(n, d, x) == callId && Cleaned(n, e, y) == callId
    ensures
      var row := TwoCalls(n, d, x, e, y, trace);
      && AllRecords(Native(n), row.events) && SoleCall(r, row, callId)
      && forall rawId :: SoleRawCall(row, rawId) ==> x == rawId && y == rawId
  {
    var row := TwoCalls(n, d, x, e, y, trace);
    TracedCallShows(n, r, d, x, trace);
    TracedCallShows(n, r, e, y, trace);
    TwoTracedCalls(n, r, row, x, y, callId);
    forall rawId | SoleRawCall(row, rawId)
      ensures x == rawId && y == rawId
    {
      TwoRawCalls(n, r, row, x, y, callId, rawId);
    }
  }

  /**
  A turn that shows one cleaned call always showed one call as it arrived if and only if no two
  identifiers are ever shown as that one.
  */
  lemma OneRawCallIff(n: Settings, r: Reader, callId: Json, trace: string)
    requires KeepsFrames(n) && KeepsTrace(n, trace)
    ensures AlwaysOneRawCall(n, r, callId) <==> Unambiguous(n, callId)
  {
    if Unambiguous(n, callId) {
      forall row: Row | AllRecords(Native(n), row.events) && SoleCall(r, row, callId)
        ensures exists rawId :: SoleRawCall(row, rawId)
      {
        var rawId := UnambiguousShowsOne(n, r, row, callId);
      }
    }
    if AlwaysOneRawCall(n, r, callId) {
      forall x: Value, y: Value, d: set<string>, e: set<string> |
        Truthy(x) && Truthy(y) && Cleaned(n, d, x) == callId && Cleaned(n, e, y) == callId
        ensures x == y
      {
        TwoCallsShowOne(n, r, d, x, e, y, trace, callId);
        assert exists rawId :: SoleRawCall(TwoCalls(n, d, x, e, y, trace), rawId);
      }
    }
  }

  // ----- the approved card

  /** The call a card speaks of, in the frame it was made from. */
  function CardCallId(n: Settings, held: Held): Json { Field(PermissionMeta(n.codec, held.raw), "tool_call_id") }

  /** The card was made of this frame, whose meta says something, and shows this call. */
  predicate CardShows(n: Settings, held: Held, callId: Json) {
    && held.card.body.nativeCard == Cleaned(n, held.known, held.raw)
    && PermissionMeta(n.codec, held.raw) != Obj([])
    && Field(PermissionMeta(n.codec, held.card.body.nativeCard), "tool_call_id") == callId
  }

  /** Every card that shows the one call of a turn speaks of the one call that arrived. */
  ghost predicate CardAlwaysNamesCall(n: Settings, r: Reader, callId: Json) {
    forall row: Row, held: Held ::
      AllRecords(Native(n), row.events) && SoleCall(r, row, callId) && CardShows(n, held, callId) ==>
      SoleRawCall(row, CardCallId(n, held))
  }

  /** Meta given directly is shown cleaned. */
  lemma DirectMeta(n: Settings, known: set<string>, data: Value)
    requires KeepsFrames(n) && Field(data, "meta").Obj?
    ensures PermissionMeta(n.codec, Cleaned(n, known, data)) == Cleaned(n, known, PermissionMeta(n.codec, data))
  {
    var c := CleanerAt(n, known);
    assert KeepsFramesAt(c);
    CleanedField(c, data, "meta");
  }

  lemma CleanedNested(c: Cleaner, text: string, v: Json)
    requires c.codec.parse(text) == Some(v) && v.Obj?
    ensures Clean(c, Str(text)) == Str(c.codec.dump(Clean(c, v))) && Clean(c, v).Obj?
  {
  }

  /** An object nested as text, cleaned, is read again with its plain fields cleaned. */
  lemma NestedReads(c: Cleaner, v: Json) returns (text: string, w: Json)
    requires ReadsDumps(c.codec) && KeepsSubstance(c) && v.Obj?
    ensures c.codec.dump(Clean(c, v)) == text && text != "" && c.codec.parse(text) == Some(w)
    ensures w.Obj? && AgreePlainly(Clean(c, v), w)
  {
    CleanIsUnique(c, v);
    assert Clean(c, v).Obj?;
    text := c.codec.dump(Clean(c, v));
    w := c.codec.parse(text).value;
  }

  lemma MetaInText(codec: Library, data: Json, text: string, v: Json)
    requires !Field(data, "meta").Obj? && Field(data, "cls") == Str(text) && text != ""
    requires codec.parse(text) == Some(v) && v.Obj?
    ensures PermissionMeta(codec, data) == v
  {
  }

  /** Where meta that is not given directly comes from. */
  lemma TextOfMeta(codec: Codec, data: Json) returns (text: string)
    requires !Field(data, "meta").Obj? && PermissionMeta(codec, data) != Obj([])
    ensures Field(data, "cls") == Str(text) && codec.parse(text) == Some(PermissionMeta(codec, data))
    ensures PermissionMeta(codec, data).Obj? && UniqueThroughout(PermissionMeta(codec, data))
  {
    text := Field(data, "cls").s;
  }

  lemma ObjectStays(c: Cleaner, v: Json)
    ensures Clean(c, v).Obj? <==> v.Obj?
  {
  }

  /** Meta nested as text is cleaned, written as text and read again: its plain fields survive. */
  lemma NestedMetaAt(c: Cleaner, data: Value)
    requires KeepsKey(c, "meta") && KeepsKey(c, "cls") && KeepsSubstance(c) && ReadsDumps(c.codec)
    requires !Field(data, "meta").Obj? && PermissionMeta(c.codec, data) != Obj([])
    ensures AgreePlainly(Clean(c, PermissionMeta(c.codec, data)), PermissionMeta(c.codec, Clean(c, data)))
    ensures UniqueThroughout(PermissionMeta(c.codec, data))
  {
    CleanedField(c, data, "meta");
    ObjectStays(c, Field(data, "meta"));
    CleanedField(c, data, "cls");
    var text := TextOfMeta(c.codec, data);
    CleanedNested(c, text, PermissionMeta(c.codec, data));
    var dumped, w := NestedReads(c, PermissionMeta(c.codec, data));
    MetaInText(c.codec, Clean(c, data), dumped, w);
  }

  lemma NestedMeta(n: Settings, known: set<string>, data: Value)
    requires KeepsFrames(n) && ReadsDumps(n.codec) && !Field(data, "meta").Obj?
    requires PermissionMeta(n.codec, data) != Obj([])
    ensures AgreePlainly(Cleaned(n, known, PermissionMeta(n.codec, data)),
                         PermissionMeta(n.codec, Cleaned(n, known, data)))
    ensures UniqueThroughout(PermissionMeta(n.codec, data))
  {
    assert KeepsFramesAt(CleanerAt(n, known));
    NestedMetaAt(CleanerAt(n, known), data);
  }

  /** What a card shows as its call is the frame's own call identifier, cleaned. */
  lemma CardShowsCall(n: Settings, held: Held, callId: Json)
    requires KeepsFrames(n) && ReadsDumps(n.codec) && CardShows(n, held, callId) && Hashable(callId)
    ensures UniqueThroughout(CardCallId(n, held)) && Cleaned(n, held.known, CardCallId(n, held)) == callId
  {
    var meta := PermissionMeta(n.codec, held.raw);
    FieldIsUnique(held.raw, "meta");
    if Field(held.raw, "meta").Obj? {
      DirectMeta(n, held.known, held.raw);
    } else {
      NestedMeta(n, held.known, held.raw);
    }
    var c := CleanerAt(n, held.known);
    assert KeepsFramesAt(c);
    FieldIsUnique(meta, "tool_call_id");
    CleanedField(c, meta, "tool_call_id");
  }

  /** A card of this call. */
  function CardOf(n: Settings, known: set<string>, x: Value): Held {
    var meta := Obj([("tool_call_id", x)]);
    assert UniqueThroughout(meta);
    var raw: Value := Obj([("meta", meta)]);
    var body := CardBody(AllowPhase, "", "", "", "", Cleaned(n, known, raw), Null, false, false);
    Held(Card(body, Sha256(body)), raw, known)
  }

  lemma CardOfShows(n: Settings, known: set<string>, x: Value)
    requires KeepsFrames(n)
    ensures CardShows(n, CardOf(n, known, x), Cleaned(n, known, x)) && CardCallId(n, CardOf(n, known, x)) == x
  {
    var c := CleanerAt(n, known);
    assert KeepsFramesAt(c);
    var held := CardOf(n, known, x);
    DirectMeta(n, known, held.raw);
    CleanedField(c, Field(held.raw, "meta"), "tool_call_id");
  }

  /** The call shown is truthy, and so is whatever cleans to it. */
  lemma ShownIsTruthy(n: Settings, r: Reader, row: Row, callId: Json, known: set<string>, rawId: Json)
    requires KeepsFrames(n) && SoleCall(r, row, callId) && Cleaned(n, known, rawId) == callId
    ensures Truthy(rawId)
  {
    assert KeepsFramesAt(CleanerAt(n, known));
    CleanedTruth(CleanerAt(n, known), rawId);
  }

  lemma CardMeetsCall(n: Settings, r: Reader, row: Row, held: Held, callId: Json)
    requires KeepsFrames(n) && ReadsDumps(n.codec) && Hashable(callId) && Unambiguous(n, callId)
    requires AllRecords(Native(n), row.events) && SoleCall(r, row, callId) && CardShows(n, held, callId)
    ensures SoleRawCall(row, CardCallId(n, held))
  {
    CardShowsCall(n, held, callId);
    ShownIsTruthy(n, r, row, callId, held.known, CardCallId(n, held));
    UnambiguousIsSole(n, r, row, callId, held.known, CardCallId(n, held));
  }

  /**
  A card that shows the call of a turn always speaks of the one call that arrived if and only if no
  two identifiers are ever shown as that one.
  */
  lemma CardNamesCallIff(n: Settings, r: Reader, callId: Json, trace: string)
    requires KeepsFrames(n) && ReadsDumps(n.codec) && KeepsTrace(n, trace) && Hashable(callId)
    ensures CardAlwaysNamesCall(n, r, callId) <==> Unambiguous(n, callId)
  {
    if Unambiguous(n, callId) {
      forall row: Row, held: Held |
        AllRecords(Native(n), row.events) && SoleCall(r, row, callId) && CardShows(n, held, callId)
        ensures SoleRawCall(row, CardCallId(n, held))
      {
        CardMeetsCall(n, r, row, held, callId);
      }
    }
    if CardAlwaysNamesCall(n, r, callId) {
      forall x: Value, y: Value, d: set<string>, e: set<string> |
        Truthy(x) && Truthy(y) && Cleaned(n, d, x) == callId && Cleaned(n, e, y) == callId
        ensures x == y
      {
        TwoCallsShowOne(n, r, e, y, e, y, trace, callId);
        CardOfShows(n, d, x);
        assert SoleRawCall(TwoCalls(n, e, y, e, y, trace), CardCallId(n, CardOf(n, d, x)));
      }
    }
  }
}
