/**
One row of evidence that passes, for any identifier of the call and any invocation, and what it says
of the verdict: which invocations a passing row names.
*/
module EvidenceSample {
  import opened Wrappers
  import opened JsonValues
  import opened NativeRecords
  import opened Evidence

  // ----- the row

  const SAMPLE_PHASE := Phase(McpPhase, "mcp_denied", "t", "")

  const SAMPLE_INPUT := Obj([("trace_id", Str("t"))])

  function MetaData(id: string): Json {
    Obj([("tool_call_id", Str(id)), ("tool_input", SAMPLE_INPUT), ("request_id", Str("q"))])
  }

  function CardData(id: string): Json { Obj([("meta", MetaData(id)), ("role", Str("permission")), ("slot", Str("s"))]) }

  function CallData(id: string): Json {
    Obj([("tool_call_id", Str(id)), ("input_preview", SAMPLE_INPUT), ("slot", Str("s"))])
  }

  function ResultData(id: string): Json { Obj([("tool_call_id", Str(id)), ("output", Str("o")), ("slot", Str("s"))]) }

  const DONE_DATA := Obj([("slot", Str("s"))])

  const SAMPLE_SEL :=
    Obj([("event_type", Str("tool_invocation")), ("outcome", Str("approved")), ("request_id", Str("q"))])

  function SampleCard(id: string): Card {
    var body := CardBody(McpPhase, "s", "q", "mcp_denied", "t", CardData(id), Null, true, false);
    Card(body, Sha256(body))
  }

  function SampleApproval(id: string): Approval {
    Approval(SampleCard(id), Decision("q", SampleCard(id).sha, Approved, true))
  }

  predicate Shows(e: Event, kind: Kind, data: Json) { e.kind == kind && e.data == data }

  /** A card, the call shown twice, its result, and the end; whatever the frames were before cleaning. */
  predicate IsSampleRow(row: Row, id: string) {
    && row.phase == SAMPLE_PHASE && row.approvals == [SampleApproval(id)] && row.sel == [SAMPLE_SEL]
    && |row.events| == 5
    && Shows(row.events[0], ChatMessage, CardData(id)) && Shows(row.events[1], ToolCall, CallData(id))
    && Shows(row.events[2], ToolCall, CallData(id)) && Shows(row.events[3], ToolResult, ResultData(id))
    && Shows(row.events[4], ChatDone, DONE_DATA)
  }

  // ----- what is read of it

  function SamplePayload(reported: Json): Json {
    Obj([("trace_id", Str("t")), ("invocation_id", reported), ("tool", Str("mcp_denied")),
         ("principal", Str(PRINCIPAL)),
         ("layer", Str("mcp")), ("error_code", Str("tool_grant_denied")), ("ok", Bool(false))])
  }

  function SampleService(invocation: Json): Json {
    Obj([("trace_id", Str("t")), ("invocation_id", invocation), ("tool", Str("mcp_denied")),
         ("principal", Str(PRINCIPAL)),
         ("journal_invocation_id", Str("j")), ("event", Str("tool_decision")), ("outcome", Str("denied"))])
  }

  const SAMPLE_BEFORE := Service(Null, Null, Str("j"))

  /** Text is printed as it is, and the tool's output holds one result object. */
  predicate ReadsSample(r: Reader, reported: Json) {
    r.codec.str(Str("q")) == "q" && r.objects("o") == [SamplePayload(reported)]
  }

  lemma ServiceFields(invocation: Json)
    ensures
      var e := SampleService(invocation);
      && Says(e, "trace_id", "t") && Field(e, "invocation_id") == invocation
      && Says(e, "tool", "mcp_denied") && Says(e, "principal", PRINCIPAL) && Says(e, "journal_invocation_id", "j")
      && Says(e, "event", "tool_decision") && Says(e, "outcome", "denied")
  {
    var fields := SampleService(invocation).fields;
    LookupAt(fields, "invocation_id", 1);
    LookupAt(fields, "tool", 2);
    LookupAt(fields, "principal", 3);
    LookupAt(fields, "journal_invocation_id", 4);
    LookupAt(fields, "event", 5);
    LookupAt(fields, "outcome", 6);
  }

  lemma PayloadReports(row: Row, reported: Json, invocation: Json)
    requires row.phase == SAMPLE_PHASE
    ensures IsResult(row, invocation, SamplePayload(reported)) <==> invocation == reported
  {
    var fields := SamplePayload(reported).fields;
    LookupAt(fields, "invocation_id", 1);
    LookupAt(fields, "tool", 2);
    LookupAt(fields, "principal", 3);
    LookupAt(fields, "layer", 4);
    LookupAt(fields, "error_code", 5);
    LookupAt(fields, "ok", 6);
  }

  lemma FrameFields(id: string)
    ensures Field(CallData(id), "tool_call_id") == Str(id) &&
      Lookup(CallData(id).fields, "input_preview") == Some(SAMPLE_INPUT)
    ensures Field(ResultData(id), "tool_call_id") == Str(id) &&
      Lookup(ResultData(id).fields, "output") == Some(Str("o"))
    ensures Field(CardData(id), "role") == Str("permission") && Lookup(CallData(id).fields, "content").None?
  {
    LookupAt(CallData(id).fields, "input_preview", 1);
    LookupAt(ResultData(id).fields, "output", 1);
    LookupAt(CardData(id).fields, "role", 1);
    LookupMiss(CallData(id).fields, "content");
  }

  lemma MetaFields(id: string)
    ensures Field(MetaData(id), "tool_call_id") == Str(id) && Field(MetaData(id), "tool_input") == SAMPLE_INPUT
    ensures Field(MetaData(id), "request_id") == Str("q") && Field(MetaData(id), "resolved") == Null
  {
    LookupAt(MetaData(id).fields, "tool_input", 1);
    LookupAt(MetaData(id).fields, "request_id", 2);
    LookupMiss(MetaData(id).fields, "resolved");
  }

  lemma WhereOne(e: Json, p: Json -> bool)
    ensures Where([e], p) == if p(e) then [e] else []
  {
    assert Where([e][1..], p) == [];
  }

  lemma OfEventOne(e: Json, name: string)
    ensures OfEvent([e], name) == if Says(e, "event", name) then [e] else []
  {
    WhereOne(e, x => Says(x, "event", name));
  }

  lemma SampleOutcome(row: Row, invocation: Json)
    requires row.phase == SAMPLE_PHASE
    ensures Outcome(row, [SampleService(invocation)], "")
  {
    ServiceFields(invocation);
    OfEventOne(SampleService(invocation), "tool_decision");
    OfEventOne(SampleService(invocation), "aws_dispatch");
    OfEventOne(SampleService(invocation), "aws_result");
  }

  lemma SampleCallIsSole(r: Reader, row: Row, id: string)
    requires IsSampleRow(row, id) && id != ""
    ensures SoleCall(r, row, Str(id))
  {
    FrameFields(id);
    assert IsCall(row.events[1]) && CarriesTrace(r, row.events[1], "t") && CallId(row.events[1]) == Str(id);
    assert !IsToolRow(row.events[0]) && !IsToolRow(row.events[3]) && !IsToolRow(row.events[4]);
  }

  lemma SampleApprovalIsSole(r: Reader, row: Row, id: string)
    requires IsSampleRow(row, id) && r.codec.str(Str("q")) == "q"
    ensures SoleApproval(r, row, Str(id))
  {
    MetaFields(id);
    LookupAt(SAMPLE_SEL.fields, "outcome", 1);
    LookupAt(SAMPLE_SEL.fields, "request_id", 2);
    assert IsApprovalOf(r, row.sel[0], "q");
  }

  lemma SampleInvocationIsSole(row: Row, invocation: Json)
    requires row.phase == SAMPLE_PHASE && invocation != Null
    ensures SoleInvocation(row, [SampleService(invocation)], SAMPLE_BEFORE, invocation)
  {
    ServiceFields(invocation);
  }

  /** The row's one result reports `reported` and nothing else. */
  lemma SampleReports(r: Reader, row: Row, id: string, reported: Json, invocation: Json)
    requires IsSampleRow(row, id) && ReadsSample(r, reported)
    ensures HasResult(r, row, {Str(id)}, invocation) <==> invocation == reported
  {
    FrameFields(id);
    PayloadReports(row, reported, invocation);
    assert Payloads(r, row.events[3]) == [SamplePayload(reported)];
    assert Payloads(r, row.events[3])[0] == SamplePayload(reported);
    assert AnswersCall(r, row, row.events[3], {Str(id)}, invocation) <==> invocation == reported;
    assert forall i :: 0 <= i < 5 && row.events[i].kind == ToolResult ==> i == 3;
  }

  /** The row passes for an invocation when the result reports what the check compares. */
  lemma SampleChain(r: Reader, row: Row, id: string, invocation: Json)
    requires IsSampleRow(row, id) && id != "" && invocation != Null && ReadsSample(r, Printed(invocation))
    ensures ApprovedChain(r, row, [SampleService(invocation)], SAMPLE_BEFORE, "", Str(id), invocation)
  {
    SampleCallIsSole(r, row, id);
    SampleApprovalIsSole(r, row, id);
    SampleInvocationIsSole(row, invocation);
    SampleOutcome(row, invocation);
    SampleReports(r, row, id, Printed(invocation), Printed(invocation));
  }

  lemma SampleFrameReadable(r: Reader, row: Row, id: string, i: nat)
    requires IsSampleRow(row, id) && id != "" && i < 5
    ensures FrameReadable(r, row.events[i], "t")
  {
    FrameFields(id);
  }

  lemma SampleResultsReadable(row: Row, id: string)
    requires IsSampleRow(row, id)
    ensures ResultsReadable(row.events)
  {
    FrameFields(id);
  }

  lemma SampleIdsHashable(r: Reader, id: string, invocation: Json)
    requires Hashable(invocation)
    ensures Hashable(Field(SampleService(invocation), "invocation_id"))
    ensures Hashable(ApprovedCall(r, SampleApproval(id)))
  {
    ServiceFields(invocation);
    MetaFields(id);
  }

  lemma SampleIsReadable(r: Reader, row: Row, id: string, invocation: Json)
    requires IsSampleRow(row, id) && id != "" && Hashable(invocation)
    ensures Readable(r, row, [SampleService(invocation)])
  {
    forall i: nat | i < |row.events|
      ensures FrameReadable(r, row.events[i], row.phase.trace)
    {
      SampleFrameReadable(r, row, id, i);
    }
    SampleResultsReadable(row, id);
    SampleIdsHashable(r, id, invocation);
  }

  lemma SampleJournal(invocation: Json)
    ensures TraceEvents([SampleService(invocation)], "t") == [SampleService(invocation)]
  {
    ServiceFields(invocation);
    WhereOne(SampleService(invocation), e => Says(e, "trace_id", "t"));
  }

  // ----- which invocations a passing row names

  /** The row passes, by a chain with this call and invocation. */
  ghost predicate PassesWith(r: Reader, row: Row, journal: seq<Json>, before: Service, sha: string,
                             callId: Json, invocation: Json) {
    var service := TraceEvents(journal, row.phase.trace);
    Readable(r, row, service) && ApprovedChain(r, row, service, before, sha, callId, invocation)
  }

  /** Whenever a row passes with this invocation, a result of the approved call reports this invocation. */
  ghost predicate AlwaysNamed(codec: Library, invocation: Json) {
    forall r: Reader, row, journal, before, sha, callId ::
      r.codec == codec && PassesWith(r, row, journal, before, sha, callId, invocation) ==>
      HasResult(r, row, {callId}, invocation)
  }

  lemma TruthfulIsNamed(codec: Library, invocation: Json)
    requires Truthy(invocation) || invocation == Str("")
    ensures AlwaysNamed(codec, invocation)
  {
    assert Printed(invocation) == invocation;
  }

  lemma UnhashableNeverPasses(codec: Library, invocation: Json)
    requires !Hashable(invocation)
    ensures AlwaysNamed(codec, invocation)
  {
    forall r: Reader, row, journal, before, sha, callId
      ensures !PassesWith(r, row, journal, before, sha, callId, invocation)
    {
      var service := TraceEvents(journal, row.phase.trace);
      if SoleInvocation(row, service, before, invocation) {
        assert Field(service[0], "invocation_id") == invocation;
      }
    }
  }

  function UntouchedEvent(kind: Kind, data: Json): Event { Event(kind, data, data, {}) }

  function SampleRow(id: string): Row {
    Row(SAMPLE_PHASE, [SampleApproval(id)],
        [UntouchedEvent(ChatMessage, CardData(id)), UntouchedEvent(ToolCall, CallData(id)),
         UntouchedEvent(ToolCall, CallData(id)), UntouchedEvent(ToolResult, ResultData(id)),
         UntouchedEvent(ChatDone, DONE_DATA)],
        [SAMPLE_SEL])
  }

  /** A row that passes with an invocation its result does not report. */
  lemma FalsyRowPasses(r: Reader, row: Row, invocation: Json)
    requires IsSampleRow(row, "c") && ReadsSample(r, Str(""))
    requires Hashable(invocation) && !Truthy(invocation) && invocation != Str("") && invocation != Null
    ensures PassesWith(r, row, [SampleService(invocation)], SAMPLE_BEFORE, "", Str("c"), invocation)
    ensures !HasResult(r, row, {Str("c")}, invocation)
  {
    SampleJournal(invocation);
    SampleIsReadable(r, row, "c", invocation);
    SampleChain(r, row, "c", invocation);
    SampleReports(r, row, "c", Str(""), invocation);
  }

  lemma NotNamedBy(r: Reader, row: Row, journal: seq<Json>, before: Service, sha: string, callId: Json,
                   invocation: Json)
    requires PassesWith(r, row, journal, before, sha, callId, invocation) && !HasResult(r, row, {callId}, invocation)
    ensures !AlwaysNamed(r.codec, invocation)
  {
  }

  lemma SampleRowIsSample(id: string)
    ensures IsSampleRow(SampleRow(id), id)
  {
  }

  lemma FalsyIsNotNamed(r: Reader, invocation: Json)
    requires ReadsSample(r, Str(""))
    requires Hashable(invocation) && !Truthy(invocation) && invocation != Str("") && invocation != Null
    ensures !AlwaysNamed(r.codec, invocation)
  {
    SampleRowIsSample("c");
    FalsyRowPasses(r, SampleRow("c"), invocation);
    NotNamedBy(r, SampleRow("c"), [SampleService(invocation)], SAMPLE_BEFORE, "", Str("c"), invocation);
  }

  /**
  Passing evidence names the service's invocation if and only if that identifier is truthy or the
  empty text, or one that no row can pass with because it cannot be hashed.
  */
  lemma AlwaysNamedIff(codec: Library, invocation: Json)
    requires codec.str(Str("q")) == "q" && invocation != Null
    ensures AlwaysNamed(codec, invocation) <==> Truthy(invocation) || invocation == Str("") || !Hashable(invocation)
  {
    if Truthy(invocation) || invocation == Str("") {
      TruthfulIsNamed(codec, invocation);
    } else if !Hashable(invocation) {
      UnhashableNeverPasses(codec, invocation);
    } else {
      FalsyIsNotNamed(Reader(codec, (_: string) => [SamplePayload(Str(""))], (path: string) => path), invocation);
    }
  }

  /** Zero is compared as the empty string: the result names "", not the service's 0, and the row passes. */
  lemma ZeroInvocationPasses(codec: Library)
    requires codec.str(Str("q")) == "q"
    ensures !AlwaysNamed(codec, Num(0))
  {
    AlwaysNamedIff(codec, Num(0));
  }
}
