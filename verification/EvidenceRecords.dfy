/**
What a row of evidence says record by record: which journal records, log entries and frames there are
and are not. The set and count checks of `Evidence` are proved to pass exactly then.
*/
module EvidenceRecords {
  import opened Wrappers
  import opened JsonValues
  import opened NativeRecords
  import opened Evidence

  // ----- the service journal

  predicate AboutTrace(journal: seq<Json>, trace: string, i: int) {
    0 <= i < |journal| && Field(journal[i], "trace_id") == Str(trace)
  }

  predicate Reports(journal: seq<Json>, trace: string, event: string, i: int) {
    AboutTrace(journal, trace, i) && Field(journal[i], "event") == Str(event)
  }

  ghost predicate OnlyReport(journal: seq<Json>, trace: string, event: string, i: int) {
    Reports(journal, trace, event, i) && forall j :: Reports(journal, trace, event, j) ==> j == i
  }

  ghost predicate NeverReports(journal: seq<Json>, trace: string, event: string) {
    forall i :: !Reports(journal, trace, event, i)
  }

  /** Every record of the trace comes from this tool, client and journal, under one invocation. */
  ghost predicate OneInvocation(row: Row, journal: seq<Json>, before: Service, invocation: Json) {
    && invocation != Null && (exists i :: AboutTrace(journal, row.phase.trace, i))
    && forall i :: AboutTrace(journal, row.phase.trace, i) ==>
         && Field(journal[i], "tool") == Str(row.phase.tool)
         && Field(journal[i], "principal") == Str("kirocrew-demo-client")
         && Field(journal[i], "journal_invocation_id") == before.invocationId
         && Field(journal[i], "invocation_id") == invocation
  }

  ghost predicate Decided(journal: seq<Json>, trace: string, outcome: string) {
    exists i :: OnlyReport(journal, trace, "tool_decision", i) && Field(journal[i], "outcome") == Str(outcome)
  }

  /** The service denied the call and never turned to AWS. */
  ghost predicate DeniedByService(journal: seq<Json>, trace: string) {
    && Decided(journal, trace, "denied")
    && NeverReports(journal, trace, "aws_dispatch") && NeverReports(journal, trace, "aws_result")
  }

  /** The service allowed the call and turned to AWS once, with one result. */
  ghost predicate AnsweredByAws(journal: seq<Json>, trace: string, i: int) {
    && Decided(journal, trace, "allowed") && (exists d :: OnlyReport(journal, trace, "aws_dispatch", d))
    && OnlyReport(journal, trace, "aws_result", i) && Truthy(Field(journal[i], "aws_request_id"))
  }

  ghost predicate AllowedByAws(journal: seq<Json>, trace: string, expectedSha: string) {
    exists i :: AnsweredByAws(journal, trace, i)
      && Field(journal[i], "outcome") == Str("allowed") && Field(journal[i], "object_sha256") == Str(expectedSha)
  }

  ghost predicate DeniedByAws(journal: seq<Json>, trace: string) {
    exists i :: AnsweredByAws(journal, trace, i)
      && Field(journal[i], "outcome") == Str("denied") && Field(journal[i], "error_code") == Str("AccessDenied")
      && Field(journal[i], "http_status") == Num(403)
  }

  ghost predicate JournalOutcome(row: Row, journal: seq<Json>, expectedSha: string) {
    match row.phase.name
    case CrewPhase => forall i :: !AboutTrace(journal, row.phase.trace, i)
    case McpPhase => DeniedByService(journal, row.phase.trace)
    case AllowPhase => AllowedByAws(journal, row.phase.trace, expectedSha)
    case IamPhase => DeniedByAws(journal, row.phase.trace)
  }

  // ----- selections of records

  lemma {:induction false} WhereNoneIff(events: seq<Json>, p: Json -> bool)
    ensures Where(events, p) == [] <==> forall i :: 0 <= i < |events| ==> !p(events[i])
  {
    if events != [] {
      WhereNoneIff(events[1..], p);
      assert forall i :: 1 <= i < |events| ==> events[1..][i - 1] == events[i];
    }
  }

  predicate OnlyOne(events: seq<Json>, p: Json -> bool, i: int) {
    0 <= i < |events| && p(events[i]) && forall j :: 0 <= j < |events| && p(events[j]) ==> j == i
  }

  lemma {:induction false} WhereSingle(events: seq<Json>, p: Json -> bool) returns (i: int)
    requires |Where(events, p)| == 1
    ensures OnlyOne(events, p, i) && Where(events, p) == [events[i]]
  {
    var rest := events[1..];
    assert forall k :: 1 <= k < |events| ==> rest[k - 1] == events[k];
    if p(events[0]) {
      i := 0;
      assert Where(rest, p) == [];
      WhereNoneIff(rest, p);
    } else {
      i := WhereSingle(rest, p);
      i := i + 1;
    }
  }

  lemma {:induction false} OnlyOneSelected(events: seq<Json>, p: Json -> bool, i: int)
    requires OnlyOne(events, p, i)
    ensures Where(events, p) == [events[i]]
  {
    var rest := events[1..];
    assert forall k :: 1 <= k < |events| ==> rest[k - 1] == events[k];
    if i == 0 {
      WhereNoneIff(rest, p);
    } else {
      OnlyOneSelected(rest, p, i - 1);
    }
  }

  lemma {:induction false} WhereTwice(events: seq<Json>, p: Json -> bool, q: Json -> bool, both: Json -> bool)
    requires forall e :: both(e) <==> p(e) && q(e)
    ensures Where(Where(events, p), q) == Where(events, both)
  {
    if events != [] {
      WhereTwice(events[1..], p, q, both);
      if p(events[0]) {
        var selected := Where(events, p);
        assert selected[0] == events[0] && selected[1..] == Where(events[1..], p);
      } else {
        assert Where(events, p) == Where(events[1..], p);
      }
    }
  }

  lemma ReportsSelected(journal: seq<Json>, trace: string, event: string) returns (both: Json -> bool)
    ensures OfEvent(TraceEvents(journal, trace), event) == Where(journal, both)
    ensures forall i :: 0 <= i < |journal| ==> (both(journal[i]) <==> Reports(journal, trace, event, i))
  {
    both := e => Says(e, "trace_id", trace) && Says(e, "event", event);
    WhereTwice(journal, e => Says(e, "trace_id", trace), x => Says(x, "event", event), both);
  }

  lemma NoReportIff(journal: seq<Json>, trace: string, event: string)
    ensures OfEvent(TraceEvents(journal, trace), event) == [] <==> NeverReports(journal, trace, event)
  {
    var both := ReportsSelected(journal, trace, event);
    WhereNoneIff(journal, both);
  }

  lemma OnlyReportIff(journal: seq<Json>, trace: string, event: string)
    ensures |OfEvent(TraceEvents(journal, trace), event)| == 1 <==> exists i :: OnlyReport(journal, trace, event, i)
    ensures forall i :: OnlyReport(journal, trace, event, i) ==>
      OfEvent(TraceEvents(journal, trace), event) == [journal[i]]
  {
    var both := ReportsSelected(journal, trace, event);
    if |Where(journal, both)| == 1 {
      var i := WhereSingle(journal, both);
      assert OnlyReport(journal, trace, event, i);
    }
    forall i | OnlyReport(journal, trace, event, i)
      ensures Where(journal, both) == [journal[i]]
    {
      OnlyOneSelected(journal, both, i);
    }
  }

  lemma DecidedIff(journal: seq<Json>, trace: string, outcome: string)
    ensures
      var decisions := OfEvent(TraceEvents(journal, trace), "tool_decision");
      Decided(journal, trace, outcome) <==> |decisions| == 1 && Says(decisions[0], "outcome", outcome)
  {
    OnlyReportIff(journal, trace, "tool_decision");
  }

  lemma AnsweredIff(journal: seq<Json>, trace: string)
    ensures
      var service := TraceEvents(journal, trace);
      var results := OfEvent(service, "aws_result");
      (Decided(journal, trace, "allowed") && |OfEvent(service, "aws_dispatch")| == 1 && |results| == 1
       && Truthy(Field(results[0], "aws_request_id")))
      <==> exists i :: AnsweredByAws(journal, trace, i)
    ensures
      var results := OfEvent(TraceEvents(journal, trace), "aws_result");
      forall i :: AnsweredByAws(journal, trace, i) ==> results == [journal[i]]
  {
    OnlyReportIff(journal, trace, "aws_dispatch");
    OnlyReportIff(journal, trace, "aws_result");
    var results := OfEvent(TraceEvents(journal, trace), "aws_result");
    if |results| == 1 {
      var i :| OnlyReport(journal, trace, "aws_result", i);
      assert AnsweredByAws(journal, trace, i) <==>
        Decided(journal, trace, "allowed") && (exists d :: OnlyReport(journal, trace, "aws_dispatch", d))
        && Truthy(Field(results[0], "aws_request_id"));
    }
  }

  lemma OutcomeIff(row: Row, journal: seq<Json>, expectedSha: string)
    requires row.phase.name != CrewPhase
    ensures Outcome(row, TraceEvents(journal, row.phase.trace), expectedSha) <==>
      JournalOutcome(row, journal, expectedSha)
  {
    var trace := row.phase.trace;
    DecidedIff(journal, trace, "denied");
    DecidedIff(journal, trace, "allowed");
    if row.phase.name == McpPhase {
      NoReportIff(journal, trace, "aws_dispatch");
      NoReportIff(journal, trace, "aws_result");
    } else {
      AnsweredIff(journal, trace);
    }
  }

  // ----- the security log

  /** The log's entry denies a tool by hook and names a request. */
  predicate IsHookDenial(sel: seq<Json>, i: int) {
    && 0 <= i < |sel| && Field(sel[i], "event_type") == Str("tool_invocation")
    && Field(sel[i], "outcome") == Str("denied") && Field(sel[i], "error") == Str("hook_deny")
    && Truthy(Field(sel[i], "request_id"))
  }

  ghost predicate IsOnlyDenial(sel: seq<Json>, i: int) {
    IsHookDenial(sel, i) && forall j :: IsHookDenial(sel, j) ==> j == i
  }

  lemma DenialIff(sel: seq<Json>)
    ensures |Where(sel, IsDenial)| == 1 <==> exists i :: IsOnlyDenial(sel, i)
  {
    forall i | 0 <= i < |sel|
      ensures IsDenial(sel[i]) <==> IsHookDenial(sel, i)
    {
    }
    if |Where(sel, IsDenial)| == 1 {
      var i := WhereSingle(sel, IsDenial);
      assert IsOnlyDenial(sel, i);
    }
    if i :| IsOnlyDenial(sel, i) {
      assert OnlyOne(sel, IsDenial, i);
      OnlyOneSelected(sel, IsDenial, i);
    }
  }

  /** The log has this approved request. */
  ghost predicate LogApproves(r: Reader, sel: seq<Json>, requestId: string) {
    exists i :: 0 <= i < |sel|
      && Field(sel[i], "event_type") == Str("tool_invocation") && Field(sel[i], "outcome") == Str("approved")
      && r.codec.str(Field(sel[i], "request_id")) == requestId
  }

  // ----- frames

  /** The identifier in a frame: its own, or failing that its meta's. */
  function FrameCallId(data: Json): Json {
    if Truthy(Field(data, "tool_call_id")) then Field(data, "tool_call_id")
    else Field(Field(data, "meta"), "tool_call_id")
  }

  /** The frame shows a tool call under this identifier. */
  predicate ShowsCall(e: Event, callId: Json) {
    && (e.kind == ToolCall || (e.kind == ChatMessage && Field(e.data, "role") == Str("tool")))
    && FrameCallId(e.data) == callId && Truthy(callId)
  }

  /** Exactly this trace and nothing else, as an object or as the text of one. */
  predicate IsTrace(r: Reader, input: Json, trace: string) {
    var exact := Obj([("trace_id", Str(trace))]);
    input == exact || (input.Str? && r.codec.parse(input.s) == Some(exact))
  }

  /** What a frame shows of the call's argument; a preview, even an empty one, comes first. */
  function Preview(data: Json): Json {
    if data.Obj? && HasKey(data.fields, "input_preview") then Field(data, "input_preview")
    else Field(Field(data, "meta"), "input")
  }

  /** The frame shows the call with the trace as its argument, at once or as a later refinement. */
  predicate ShowsTrace(r: Reader, e: Event, callId: Json, trace: string) {
    || (ShowsCall(e, callId) && IsTrace(r, Preview(e.data), trace))
    || (e.kind == ChatMessageUpdate && FrameCallId(e.data) == callId
        && IsTrace(r, Field(Field(e.data, "meta"), "input"), trace))
  }

  /** The client's own message that the call was blocked. */
  predicate ShowsBlock(r: Reader, e: Event, callId: Json, trace: string) {
    var content := Field(e.data, "content");
    && ShowsCall(e, callId) && IsTrace(r, Preview(e.data), trace) && Field(e.data, "role") == Str("tool")
    && content.Str? && "\U{1F6AB}" <= content.s
    && Includes(content.s, "Blocked by security policy: @aws-enforcement/crew_denied")
  }

  /** One call is shown, under one identifier, and its argument is the trace. */
  ghost predicate OneCall(r: Reader, row: Row, callId: Json) {
    && (exists i :: 0 <= i < |row.events| && ShowsCall(row.events[i], callId))
    && (forall i, other :: 0 <= i < |row.events| && ShowsCall(row.events[i], other) ==> other == callId)
    && (exists i :: 0 <= i < |row.events| && ShowsTrace(r, row.events[i], callId, row.phase.trace))
  }

  lemma CallsShown(e: Event, callId: Json)
    ensures IsCall(e) && CallId(e) == callId <==> ShowsCall(e, callId)
  {
  }

  lemma TraceShown(r: Reader, e: Event, callId: Json, trace: string)
    ensures Traced(r, e, trace) && CallId(e) == callId <==> ShowsTrace(r, e, callId, trace)
    ensures IsCall(e) && CarriesTrace(r, e, trace) && IsBlocked(e) && CallId(e) == callId <==>
      ShowsBlock(r, e, callId, trace)
  {
    CallsShown(e, callId);
  }

  lemma OneCallIff(r: Reader, row: Row, callId: Json)
    ensures SoleCall(r, row, callId) <==> OneCall(r, row, callId)
  {
    forall i | 0 <= i < |row.events|
      ensures IsCall(row.events[i]) <==> ShowsCall(row.events[i], CallId(row.events[i]))
      ensures forall id :: ShowsCall(row.events[i], id) ==> IsCall(row.events[i]) && CallId(row.events[i]) == id
      ensures Traced(r, row.events[i], row.phase.trace) && CallId(row.events[i]) == callId <==>
        ShowsTrace(r, row.events[i], callId, row.phase.trace)
    {
      CallsShown(row.events[i], CallId(row.events[i]));
      forall id | ShowsCall(row.events[i], id)
        ensures IsCall(row.events[i]) && CallId(row.events[i]) == id
      {
        CallsShown(row.events[i], id);
      }
      TraceShown(r, row.events[i], callId, row.phase.trace);
    }
    if SoleCall(r, row, callId) {
      var i :| 0 <= i < |row.events| && IsCall(row.events[i]);
      assert ShowsCall(row.events[i], callId);
    }
  }

  // ----- results

  /** A payload as the service wrote it for this phase and invocation. */
  predicate IsPayload(row: Row, invocation: Json, payload: Json) {
    && Field(payload, "trace_id") == Str(row.phase.trace) && Field(payload, "invocation_id") == invocation
    && Field(payload, "tool") == Str(row.phase.tool) && Field(payload, "principal") == Str("kirocrew-demo-client")
    && match row.phase.name
       case AllowPhase =>
         && Field(payload, "layer") == Str("aws") && Field(payload, "error_code") == Null
         && Field(payload, "ok") == Bool(true)
       case McpPhase =>
         && Field(payload, "layer") == Str("mcp") && Field(payload, "error_code") == Str("tool_grant_denied")
         && Field(payload, "ok") == Bool(false)
       case IamPhase =>
         && Field(payload, "layer") == Str("aws") && Field(payload, "error_code") == Str("AccessDenied")
         && Field(payload, "ok") == Bool(false)
       case CrewPhase => false
  }

  /** The objects in what a result frame reports; a missing output is empty text. */
  function ReportedObjects(r: Reader, data: Json): seq<Json> {
    if !data.Obj? || !HasKey(data.fields, "output") then r.objects("")
    else if Field(data, "output").Str? then r.objects(Field(data, "output").s)
    else []
  }

  /** A result of this call holds such a payload; an invocation that says nothing is compared as empty text. */
  ghost predicate ResultReports(r: Reader, row: Row, callId: Json, invocation: Json) {
    exists i, j :: 0 <= i < |row.events|
      && row.events[i].kind == ToolResult && Field(row.events[i].data, "tool_call_id") == callId
      && 0 <= j < |ReportedObjects(r, row.events[i].data)|
      && IsPayload(row, if Truthy(invocation) then invocation else Str(""),
                   ReportedObjects(r, row.events[i].data)[j])
  }

  lemma OutputRead(r: Reader, e: Event)
    ensures Payloads(r, e) == ReportedObjects(r, e.data)
  {
  }

  lemma PayloadIff(row: Row, invocation: Json, payload: Json)
    requires row.phase.name != CrewPhase
    ensures IsResult(row, invocation, payload) <==> IsPayload(row, invocation, payload)
  {
  }

  lemma ResultIff(r: Reader, row: Row, callId: Json, invocation: Json)
    requires row.phase.name != CrewPhase
    ensures HasResult(r, row, {callId}, Printed(invocation)) <==> ResultReports(r, row, callId, invocation)
  {
    forall i | 0 <= i < |row.events|
      ensures Payloads(r, row.events[i]) == ReportedObjects(r, row.events[i].data)
    {
      OutputRead(r, row.events[i]);
    }
    forall payload
      ensures IsResult(row, Printed(invocation), payload) <==> IsPayload(row, Printed(invocation), payload)
    {
      PayloadIff(row, Printed(invocation), payload);
    }
  }

  // ----- the row

  /** The row's approval, of this call and with exactly the trace as its argument. */
  ghost predicate OneApproval(r: Reader, row: Row, callId: Json) {
    && |row.approvals| == 1
    && var meta := PermissionMeta(r.codec, row.approvals[0].card.body.nativeCard);
    && Field(meta, "tool_call_id") == callId && IsTrace(r, Field(meta, "tool_input"), row.phase.trace)
    && LogApproves(r, row.sel, row.approvals[0].decision.requestId)
  }

  /** Crew: the one call shown was blocked, nobody approved anything, the log has the one denial. */
  ghost predicate BlockedRow(r: Reader, row: Row, callId: Json) {
    && OneCall(r, row, callId) && row.approvals == []
    && (exists i :: 0 <= i < |row.events| && ShowsBlock(r, row.events[i], callId, row.phase.trace))
    && (exists i :: IsOnlyDenial(row.sel, i))
  }

  /** Elsewhere: the one call shown is the one approved, and one invocation served it and reported. */
  ghost predicate ServedRow(r: Reader, row: Row, journal: seq<Json>, before: Service, callId: Json, invocation: Json) {
    && OneCall(r, row, callId) && OneApproval(r, row, callId) && OneInvocation(row, journal, before, invocation)
    && ResultReports(r, row, callId, invocation)
  }

  ghost predicate RecordsHold(r: Reader, row: Row, journal: seq<Json>, before: Service, expectedSha: string) {
    && JournalOutcome(row, journal, expectedSha)
    && if row.phase.name == CrewPhase then exists callId :: BlockedRow(r, row, callId)
       else exists callId, invocation :: ServedRow(r, row, journal, before, callId, invocation)
  }

  lemma InvocationIff(row: Row, journal: seq<Json>, before: Service, invocation: Json)
    ensures SoleInvocation(row, TraceEvents(journal, row.phase.trace), before, invocation) <==>
      OneInvocation(row, journal, before, invocation)
  {
    var service := TraceEvents(journal, row.phase.trace);
    assert forall e :: e in service <==> e in journal && Says(e, "trace_id", row.phase.trace);
    if SoleInvocation(row, service, before, invocation) {
      assert service[0] in journal;
      var first :| 0 <= first < |journal| && journal[first] == service[0];
      assert AboutTrace(journal, row.phase.trace, first);
      forall i | AboutTrace(journal, row.phase.trace, i)
        ensures IsOurs(journal[i], row, before) && Field(journal[i], "invocation_id") == invocation
      {
        assert journal[i] in service;
      }
    }
    if OneInvocation(row, journal, before, invocation) {
      var i :| AboutTrace(journal, row.phase.trace, i);
      assert journal[i] in service;
      forall k | 0 <= k < |service|
        ensures IsOurs(service[k], row, before) && Field(service[k], "invocation_id") == invocation
      {
        assert service[k] in journal;
        var j :| 0 <= j < |journal| && journal[j] == service[k];
        assert AboutTrace(journal, row.phase.trace, j);
      }
    }
  }

  lemma ApprovedIff(r: Reader, sel: seq<Json>, requestId: string)
    ensures (exists k :: 0 <= k < |sel| && IsApprovalOf(r, sel[k], requestId)) <==> LogApproves(r, sel, requestId)
  {
    if LogApproves(r, sel, requestId) {
      var i :| 0 <= i < |sel|
        && Field(sel[i], "event_type") == Str("tool_invocation") && Field(sel[i], "outcome") == Str("approved")
        && r.codec.str(Field(sel[i], "request_id")) == requestId;
      assert IsApprovalOf(r, sel[i], requestId);
    }
  }

  lemma ApprovalIff(r: Reader, row: Row, callId: Json)
    ensures SoleApproval(r, row, callId) <==> OneApproval(r, row, callId)
  {
    if |row.approvals| == 1 {
      ApprovedIff(r, row.sel, row.approvals[0].decision.requestId);
      assert ApprovedExactInput(r, row.approvals[0], row.phase.trace) <==>
        IsTrace(r, Field(PermissionMeta(r.codec, row.approvals[0].card.body.nativeCard), "tool_input"),
                row.phase.trace);
    }
  }

  lemma ServedIff(r: Reader, row: Row, journal: seq<Json>, before: Service, expectedSha: string, callId: Json,
                  invocation: Json)
    requires row.phase.name != CrewPhase
    ensures
      ApprovedChain(r, row, TraceEvents(journal, row.phase.trace), before, expectedSha, callId, invocation)
      <==> JournalOutcome(row, journal, expectedSha) && ServedRow(r, row, journal, before, callId, invocation)
  {
    OneCallIff(r, row, callId);
    ApprovalIff(r, row, callId);
    InvocationIff(row, journal, before, invocation);
    OutcomeIff(row, journal, expectedSha);
    ResultIff(r, row, callId, invocation);
  }

  lemma BlockIff(r: Reader, row: Row, callId: Json)
    ensures BlockedCall(r, row, callId) <==>
      exists i :: 0 <= i < |row.events| && ShowsBlock(r, row.events[i], callId, row.phase.trace)
  {
    forall i | 0 <= i < |row.events|
      ensures ShowsBlock(r, row.events[i], callId, row.phase.trace) <==>
        IsCall(row.events[i]) && CarriesTrace(r, row.events[i], row.phase.trace) && IsBlocked(row.events[i])
        && CallId(row.events[i]) == callId
    {
      TraceShown(r, row.events[i], callId, row.phase.trace);
    }
  }

  lemma UnseenIff(journal: seq<Json>, trace: string)
    ensures TraceEvents(journal, trace) == [] <==> forall i :: !AboutTrace(journal, trace, i)
  {
    WhereNoneIff(journal, e => Says(e, "trace_id", trace));
    assert forall i :: 0 <= i < |journal| ==> (Says(journal[i], "trace_id", trace) <==> AboutTrace(journal, trace, i));
  }

  lemma BlockedIff(r: Reader, row: Row, journal: seq<Json>, callId: Json)
    requires row.phase.name == CrewPhase
    ensures
      CrewChain(r, row, TraceEvents(journal, row.phase.trace), callId)
      <==> JournalOutcome(row, journal, "") && BlockedRow(r, row, callId)
  {
    OneCallIff(r, row, callId);
    DenialIff(row.sel);
    UnseenIff(journal, row.phase.trace);
    BlockIff(r, row, callId);
  }

  lemma LinkedIff(r: Reader, row: Row, journal: seq<Json>, before: Service, expectedSha: string)
    ensures Linked(r, row, TraceEvents(journal, row.phase.trace), before, expectedSha) <==>
      RecordsHold(r, row, journal, before, expectedSha)
  {
    if row.phase.name == CrewPhase {
      forall callId
        ensures CrewChain(r, row, TraceEvents(journal, row.phase.trace), callId) <==>
          JournalOutcome(row, journal, "") && BlockedRow(r, row, callId)
      {
        BlockedIff(r, row, journal, callId);
      }
    } else {
      forall callId, invocation
        ensures
          ApprovedChain(r, row, TraceEvents(journal, row.phase.trace), before, expectedSha, callId, invocation)
          <==> JournalOutcome(row, journal, expectedSha) && ServedRow(r, row, journal, before, callId, invocation)
      {
        ServedIff(r, row, journal, before, expectedSha, callId, invocation);
      }
    }
  }

  // ----- where a row cannot be read

  predicate Unhashable(v: Json) { v.Arr? || v.Obj? }

  /** A tool's message whose content is there but is not text. */
  predicate ContentRaises(data: Json) {
    && Field(data, "role") == Str("tool") && data.Obj? && HasKey(data.fields, "content")
    && !Field(data, "content").Str?
  }

  ghost predicate CallRaises(r: Reader, row: Row) {
    exists i, callId :: 0 <= i < |row.events| && ShowsCall(row.events[i], callId)
      && (Unhashable(callId)
          || (IsTrace(r, Preview(row.events[i].data), row.phase.trace) && ContentRaises(row.events[i].data)))
  }

  predicate UpdateRaises(row: Row) {
    exists i :: 0 <= i < |row.events| && row.events[i].kind == ChatMessageUpdate
      && Unhashable(FrameCallId(row.events[i].data))
  }

  ghost predicate JournalRaises(row: Row, journal: seq<Json>) {
    exists i :: AboutTrace(journal, row.phase.trace, i) && Unhashable(Field(journal[i], "invocation_id"))
  }

  predicate CardRaises(r: Reader, card: Json) { Unhashable(Field(PermissionMeta(r.codec, card), "tool_call_id")) }

  predicate ResultRaises(data: Json) { Unhashable(Field(data, "tool_call_id")) }

  /** What only approved phases look at: the approved calls and the results. */
  predicate ApprovedRaises(r: Reader, row: Row) {
    || (exists i :: 0 <= i < |row.approvals| && CardRaises(r, row.approvals[i].card.body.nativeCard))
    || (exists i :: 0 <= i < |row.events| && row.events[i].kind == ToolResult && ResultRaises(row.events[i].data))
  }

  ghost predicate Raises(r: Reader, row: Row, journal: seq<Json>) {
    || CallRaises(r, row) || UpdateRaises(row) || JournalRaises(row, journal)
    || (row.phase.name != CrewPhase && ApprovedRaises(r, row))
  }

  predicate FrameRaises(r: Reader, e: Event, trace: string) {
    || (ShowsCall(e, FrameCallId(e.data))
        && (Unhashable(FrameCallId(e.data)) || (IsTrace(r, Preview(e.data), trace) && ContentRaises(e.data))))
    || (e.kind == ChatMessageUpdate && Unhashable(FrameCallId(e.data)))
  }

  lemma FrameRaisesIff(r: Reader, e: Event, trace: string)
    ensures FrameReadable(r, e, trace) <==> !FrameRaises(r, e, trace)
  {
    CallsShown(e, FrameCallId(e.data));
  }

  lemma FramesRaiseIff(r: Reader, row: Row)
    ensures CallRaises(r, row) || UpdateRaises(row) <==>
      exists i :: 0 <= i < |row.events| && FrameRaises(r, row.events[i], row.phase.trace)
  {
    if i :| 0 <= i < |row.events| && FrameRaises(r, row.events[i], row.phase.trace) {
      var callId := FrameCallId(row.events[i].data);
      assert ShowsCall(row.events[i], callId) || UpdateRaises(row);
    }
  }

  lemma JournalRaisesIff(row: Row, journal: seq<Json>)
    ensures
      var service := TraceEvents(journal, row.phase.trace);
      (forall i :: 0 <= i < |service| ==> Hashable(Field(service[i], "invocation_id")))
      <==> !JournalRaises(row, journal)
  {
    var service := TraceEvents(journal, row.phase.trace);
    assert forall e :: e in service <==> e in journal && Says(e, "trace_id", row.phase.trace);
    if i :| AboutTrace(journal, row.phase.trace, i) && Unhashable(Field(journal[i], "invocation_id")) {
      assert journal[i] in service;
    }
    if i :| 0 <= i < |service| && !Hashable(Field(service[i], "invocation_id")) {
      assert service[i] in journal;
    }
  }

  lemma ReadableIff(r: Reader, row: Row, journal: seq<Json>)
    ensures Readable(r, row, TraceEvents(journal, row.phase.trace)) <==> !Raises(r, row, journal)
  {
    forall i | 0 <= i < |row.events|
      ensures FrameReadable(r, row.events[i], row.phase.trace) <==> !FrameRaises(r, row.events[i], row.phase.trace)
    {
      FrameRaisesIff(r, row.events[i], row.phase.trace);
    }
    FramesRaiseIff(r, row);
    JournalRaisesIff(row, journal);
  }

  /** The checks of a row pass if and only if nothing in it raises and its records are these. */
  lemma PassesIff(r: Reader, row: Row, journal: seq<Json>, before: Service, expectedSha: string)
    ensures Passes(r, row, journal, before, expectedSha) <==>
      !Raises(r, row, journal) && RecordsHold(r, row, journal, before, expectedSha)
  {
    ReadableIff(r, row, journal);
    LinkedIff(r, row, journal, before, expectedSha);
  }

  // ----- the whole run

  /** The security log has records, all of them valid, none tampered with. */
  ghost predicate LogVerifies(reply: Json) {
    && Field(reply, "integrity") == Str("ok") && Field(reply, "tampered") == Num(0)
    && exists n :: n > 0 && Field(reply, "total") == Num(n) && Field(reply, "valid") == Num(n)
  }

  predicate WorksHere(process: Json) { Field(process, "cwd") == Str("/srv/kirocrew-demo/workspace") }

  /** The path of a process's executable, empty when none is given; no text when something else is. */
  function Executable(process: Json): Option<string> {
    if !process.Obj? then None
    else if !HasKey(process.fields, "exe") then Some("")
    else if Field(process, "exe").Str? then Some(Field(process, "exe").s)
    else None
  }

  /** A backend at work in the workspace was seen, and every process before it could be looked at. */
  ghost predicate BackendFound(r: Reader, processes: seq<Json>) {
    exists i :: 0 <= i < |processes|
      && WorksHere(processes[i]) && Executable(processes[i]).Some?
      && "kiro-cli" <= r.baseName(Executable(processes[i]).value)
      && forall j :: 0 <= j < i ==>
           processes[j].Obj? && (WorksHere(processes[j]) ==> Executable(processes[j]).Some?)
  }

  lemma BackendIff(r: Reader, processes: seq<Json>)
    ensures BackendSeen(r, processes) <==> BackendFound(r, processes)
  {
    BackendSeenIff(r, processes);
    forall i | 0 <= i < |processes|
      ensures IsOpaque(processes[i]) <==>
        !(processes[i].Obj? && (WorksHere(processes[i]) ==> Executable(processes[i]).Some?))
      ensures IsBackend(r, processes[i]) <==>
        WorksHere(processes[i]) && Executable(processes[i]).Some?
        && "kiro-cli" <= r.baseName(Executable(processes[i]).value)
    {
    }
  }

  /**
  A run passes if and only if the service never restarted, its journal is complete, the security log
  verifies, the backend was seen at work, and every row's records hold.
  */
  lemma RunPassesIff(r: Reader, receipt: Receipt, expectedSha: string)
    ensures RunPasses(r, receipt, expectedSha) <==>
      && receipt.before.mainPid == receipt.after.mainPid && receipt.before.restarts == receipt.after.restarts
      && receipt.before.invocationId == receipt.after.invocationId
      && receipt.collected && LogVerifies(receipt.integrity) && BackendFound(r, receipt.processes)
      && forall k :: 0 <= k < |receipt.rows| ==>
           && !Raises(r, receipt.rows[k], receipt.journal)
           && RecordsHold(r, receipt.rows[k], receipt.journal, receipt.before, expectedSha)
  {
    BackendIff(r, receipt.processes);
    assert IsIntact(receipt.integrity) <==> LogVerifies(receipt.integrity);
    forall k | 0 <= k < |receipt.rows|
      ensures RowPasses(r, receipt, k, expectedSha) <==>
        !Raises(r, receipt.rows[k], receipt.journal) &&
        RecordsHold(r, receipt.rows[k], receipt.journal, receipt.before, expectedSha)
    {
      PassesIff(r, receipt.rows[k], receipt.journal, receipt.before, expectedSha);
    }
  }
}
