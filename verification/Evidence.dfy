/**
`Runner.evaluate`: from sets of identifiers and counts to a verdict per phase. The set and length
checks are proved equivalent to a one-to-one chain that links one tool call, one approval, one
service invocation and one backend result.
*/
module Evidence {
  import opened JsonValues
  import opened NativeRecords

  /**
  The JSON text library, `result_objects` (the objects found inside a tool's text output) and the last
  component of a path.
  */
  datatype Reader = Reader(codec: Library, objects: string -> seq<Json>, baseName: string -> string)

  function Where(events: seq<Json>, p: Json -> bool): (r: seq<Json>)
    ensures forall e :: e in r <==> e in events && p(e)
  {
    if events == [] then [] else (if p(events[0]) then [events[0]] else []) + Where(events[1..], p)
  }

  predicate Says(e: Json, key: string, text: string) {
    Field(e, key) == Str(text)
  }

  // ----- reading one row's frames

  function MetaOf(data: Json): Json {
    if Field(data, "meta").Obj? then Field(data, "meta") else Obj([])
  }

  function CallIdIn(data: Json): Json {
    var direct := Field(data, "tool_call_id");
    if Truthy(direct) then direct else Field(MetaOf(data), "tool_call_id")
  }

  function CallId(e: Event): Json { CallIdIn(e.data) }

  predicate IsToolRowIn(kind: Kind, data: Json) {
    kind == ToolCall || (kind == ChatMessage && Says(data, "role", "tool"))
  }

  predicate IsToolRow(e: Event) { IsToolRowIn(e.kind, e.data) }

  /** A frame that shows a tool call: the first loop skips every other one. */
  predicate IsCall(e: Event) {
    IsToolRow(e) && Truthy(CallId(e))
  }

  predicate CarriesTrace(r: Reader, e: Event, trace: string) {
    ExactTraceInput(r.codec, FieldOr(e.data, "input_preview", Field(MetaOf(e.data), "input")), trace)
  }

  predicate RefinesTrace(r: Reader, e: Event, trace: string) {
    e.kind == ChatMessageUpdate && ExactTraceInput(r.codec, Field(MetaOf(e.data), "input"), trace)
  }

  const BLOCK_SIGN := "\U{1F6AB}"
  const BLOCK_TEXT := "Blocked by security policy: @aws-enforcement/crew_denied"

  predicate IsBlocked(e: Event) {
    var content := FieldOr(e.data, "content", Str(""));
    Says(e.data, "role", "tool") && content.Str? && BLOCK_SIGN <= content.s && Includes(content.s, BLOCK_TEXT)
  }

  /** Only approved phases look for the result of their call. */
  predicate ResultsReadable(events: seq<Event>) {
    forall i :: 0 <= i < |events| && events[i].kind == ToolResult ==> Hashable(Field(events[i].data, "tool_call_id"))
  }

  predicate FrameReadable(r: Reader, e: Event, trace: string) {
    && (IsCall(e) ==> Hashable(CallId(e)))
    && (IsCall(e) && CarriesTrace(r, e, trace) && Says(e.data, "role", "tool") ==>
        FieldOr(e.data, "content", Str("")).Str?)
    && (e.kind == ChatMessageUpdate ==> Hashable(CallId(e)))
  }

  function ApprovedCall(r: Reader, a: Approval): Json {
    Field(PermissionMeta(r.codec, a.card.body.nativeCard), "tool_call_id")
  }

  /** Where the code would raise instead of deciding: an unhashable identifier or text that is not text. */
  predicate Readable(r: Reader, row: Row, service: seq<Json>) {
    && (forall i :: 0 <= i < |row.events| ==> FrameReadable(r, row.events[i], row.phase.trace))
    && (forall i :: 0 <= i < |service| ==> Hashable(Field(service[i], "invocation_id")))
    && (row.phase.name != CrewPhase ==>
        && (forall i :: 0 <= i < |row.approvals| ==> Hashable(ApprovedCall(r, row.approvals[i])))
        && ResultsReadable(row.events))
  }

  function CallIds(events: seq<Event>): set<Json> {
    set i | 0 <= i < |events| && IsCall(events[i]) :: CallId(events[i])
  }

  function ShownIds(r: Reader, events: seq<Event>, trace: string): set<Json> {
    set i | 0 <= i < |events| && IsCall(events[i]) && CarriesTrace(r, events[i], trace) :: CallId(events[i])
  }

  function BlockedIds(r: Reader, events: seq<Event>, trace: string): set<Json> {
    set i | 0 <= i < |events| && IsCall(events[i]) && CarriesTrace(r, events[i], trace) && IsBlocked(events[i]) ::
      CallId(events[i])
  }

  function RefinedIds(r: Reader, events: seq<Event>, trace: string, calls: set<Json>): set<Json> {
    set i | 0 <= i < |events| && RefinesTrace(r, events[i], trace) && CallId(events[i]) in calls :: CallId(events[i])
  }

  /** The identifiers whose call is seen with exactly this trace, at once or in a later refinement. */
  function TraceIds(r: Reader, events: seq<Event>, trace: string): set<Json> {
    ShownIds(r, events, trace) + RefinedIds(r, events, trace, CallIds(events))
  }

  lemma IdsGrow(r: Reader, events: seq<Event>, e: Event, trace: string, calls: set<Json>)
    ensures CallIds(events + [e]) == CallIds(events) + if IsCall(e) then {CallId(e)} else {}
    ensures ShownIds(r, events + [e], trace) ==
            ShownIds(r, events, trace) + if IsCall(e) && CarriesTrace(r, e, trace) then {CallId(e)} else {}
    ensures BlockedIds(r, events + [e], trace) ==
            BlockedIds(r, events, trace)
            + if IsCall(e) && CarriesTrace(r, e, trace) && IsBlocked(e) then {CallId(e)} else {}
    ensures RefinedIds(r, events + [e], trace, calls) ==
            RefinedIds(r, events, trace, calls)
            + if RefinesTrace(r, e, trace) && CallId(e) in calls then {CallId(e)} else {}
  {
    var longer := events + [e];
    assert longer[|events|] == e && forall i :: 0 <= i < |events| ==> longer[i] == events[i];
  }

  /** The first loop: calls, and among them those that carry the trace at once and those that were blocked. */
  method CollectShown(r: Reader, events: seq<Event>, trace: string)
    returns (calls: set<Json>, traces: set<Json>, blocked: set<Json>)
    ensures calls == CallIds(events)
    ensures traces == ShownIds(r, events, trace)
    ensures blocked == BlockedIds(r, events, trace)
  {
    calls, traces, blocked := {}, {}, {};
    for i := 0 to |events|
      invariant calls == CallIds(events[..i])
      invariant traces == ShownIds(r, events[..i], trace)
      invariant blocked == BlockedIds(r, events[..i], trace)
    {
      var e := events[i];
      IdsGrow(r, events[..i], e, trace, {});
      assert events[..i + 1] == events[..i] + [e];
      if IsCall(e) {
        calls := calls + {CallId(e)};
        if CarriesTrace(r, e, trace) {
          traces := traces + {CallId(e)};
          if IsBlocked(e) {
            blocked := blocked + {CallId(e)};
          }
        }
      }
    }
    assert events[..|events|] == events;
  }

  method CollectIds(r: Reader, events: seq<Event>, trace: string)
    returns (calls: set<Json>, traces: set<Json>, blocked: set<Json>)
    ensures calls == CallIds(events)
    ensures traces == TraceIds(r, events, trace)
    ensures blocked == BlockedIds(r, events, trace)
  {
    calls, traces, blocked := CollectShown(r, events, trace);
    for i := 0 to |events|
      invariant traces == ShownIds(r, events, trace) + RefinedIds(r, events[..i], trace, calls)
    {
      IdsGrow(r, events[..i], events[i], trace, calls);
      assert events[..i + 1] == events[..i] + [events[i]];
      if RefinesTrace(r, events[i], trace) && CallId(events[i]) in calls {
        traces := traces + {CallId(events[i])};
      }
    }
    assert events[..|events|] == events;
  }

  // ----- the service journal and the verdict

  datatype Service = Service(mainPid: Json, restarts: Json, invocationId: Json)

  const PRINCIPAL := "kirocrew-demo-client"

  function TraceEvents(journal: seq<Json>, trace: string): seq<Json> {
    Where(journal, e => Says(e, "trace_id", trace))
  }

  function Invocations(service: seq<Json>): set<Json> {
    set i | 0 <= i < |service| :: Field(service[i], "invocation_id")
  }

  predicate IsOurs(e: Json, row: Row, before: Service) {
    && Says(e, "tool", row.phase.tool) && Says(e, "principal", PRINCIPAL)
    && Field(e, "journal_invocation_id") == before.invocationId
  }

  function OfEvent(service: seq<Json>, name: string): seq<Json> {
    Where(service, x => Says(x, "event", name))
  }

  predicate IsDenial(e: Json) {
    Says(e, "event_type", "tool_invocation") && Says(e, "outcome", "denied") && Says(e, "error", "hook_deny")
    && Truthy(Field(e, "request_id"))
  }

  predicate IsApprovalOf(r: Reader, e: Json, requestId: string) {
    Says(e, "event_type", "tool_invocation") && Says(e, "outcome", "approved")
    && r.codec.str(Field(e, "request_id")) == requestId
  }

  function NativeIds(r: Reader, sel: seq<Json>): set<string> {
    set i | 0 <= i < |sel| && Says(sel[i], "event_type", "tool_invocation") && Says(sel[i], "outcome", "approved")
      :: r.codec.str(Field(sel[i], "request_id"))
  }

  predicate ApprovedExactInput(r: Reader, a: Approval, trace: string) {
    ExactTraceInput(r.codec, Field(PermissionMeta(r.codec, a.card.body.nativeCard), "tool_input"), trace)
  }

  function Printed(invocation: Json): Json {
    if Truthy(invocation) then invocation else Str("")
  }

  /** A result payload of the observed call that names the trace, the tool, the service invocation and the layer. */
  predicate IsResult(row: Row, invocation: Json, payload: Json) {
    && Says(payload, "trace_id", row.phase.trace) && Field(payload, "invocation_id") == invocation
    && Says(payload, "tool", row.phase.tool) && Says(payload, "principal", PRINCIPAL)
    && Says(payload, "layer", if row.phase.name == McpPhase then "mcp" else "aws")
    && Field(payload, "error_code") ==
       (match row.phase.name
        case AllowPhase => Null
        case McpPhase => Str("tool_grant_denied")
        case _ => Str("AccessDenied"))
    && Field(payload, "ok") == Bool(row.phase.name == AllowPhase)
  }

  function Payloads(r: Reader, e: Event): seq<Json> {
    var output := FieldOr(e.data, "output", Str(""));
    if output.Str? then r.objects(output.s) else []
  }

  predicate AnswersCall(r: Reader, row: Row, e: Event, calls: set<Json>, invocation: Json) {
    && e.kind == ToolResult && Field(e.data, "tool_call_id") in calls
    && exists j :: 0 <= j < |Payloads(r, e)| && IsResult(row, invocation, Payloads(r, e)[j])
  }

  predicate HasResult(r: Reader, row: Row, calls: set<Json>, invocation: Json) {
    exists i :: 0 <= i < |row.events| && AnswersCall(r, row, row.events[i], calls, invocation)
  }

  /** What the service must have decided and what AWS must have answered. */
  predicate Outcome(row: Row, service: seq<Json>, expectedSha: string) {
    var decisions, dispatch := OfEvent(service, "tool_decision"), OfEvent(service, "aws_dispatch");
    var results := OfEvent(service, "aws_result");
    && |decisions| == 1
    && if row.phase.name == McpPhase then Says(decisions[0], "outcome", "denied") && dispatch == [] && results == []
       else
         && Says(decisions[0], "outcome", "allowed") && |dispatch| == 1 && |results| == 1
         && Truthy(Field(results[0], "aws_request_id"))
         && if row.phase.name == AllowPhase
            then Says(results[0], "outcome", "allowed") && Says(results[0], "object_sha256", expectedSha)
            else Says(results[0], "outcome", "denied") && Says(results[0], "error_code", "AccessDenied")
                 && Field(results[0], "http_status") == Num(403)
  }

  // ----- the chain the checks stand for

  predicate Traced(r: Reader, e: Event, trace: string) {
    (IsCall(e) && CarriesTrace(r, e, trace)) || RefinesTrace(r, e, trace)
  }

  /** The turn shows one tool call and no other, and it carried exactly the fixed trace. */
  ghost predicate SoleCall(r: Reader, row: Row, callId: Json) {
    && (exists i :: 0 <= i < |row.events| && IsCall(row.events[i]))
    && (forall i :: 0 <= i < |row.events| && IsCall(row.events[i]) ==> CallId(row.events[i]) == callId)
    && (exists i ::
        0 <= i < |row.events| && Traced(r, row.events[i], row.phase.trace) && CallId(row.events[i]) == callId)
  }

  ghost predicate BlockedCall(r: Reader, row: Row, callId: Json) {
    exists i :: 0 <= i < |row.events| && IsCall(row.events[i]) && CarriesTrace(r, row.events[i], row.phase.trace)
      && IsBlocked(row.events[i]) && CallId(row.events[i]) == callId
  }

  /** Crew: the only call carried the trace and was blocked; nobody approved it and no service saw it. */
  ghost predicate CrewChain(r: Reader, row: Row, service: seq<Json>, callId: Json) {
    && SoleCall(r, row, callId) && BlockedCall(r, row, callId)
    && row.approvals == [] && service == [] && |Where(row.sel, IsDenial)| == 1
  }

  /** The only approval is of this call, with exactly the fixed argument, and the security log has its request. */
  ghost predicate SoleApproval(r: Reader, row: Row, callId: Json) {
    && |row.approvals| == 1
    && ApprovedCall(r, row.approvals[0]) == callId
    && ApprovedExactInput(r, row.approvals[0], row.phase.trace)
    && exists k :: 0 <= k < |row.sel| && IsApprovalOf(r, row.sel[k], row.approvals[0].decision.requestId)
  }

  /** Everything the service logged for the trace belongs to this one invocation. */
  ghost predicate SoleInvocation(row: Row, service: seq<Json>, before: Service, invocation: Json) {
    && service != [] && invocation != Null
    && forall i :: 0 <= i < |service| ==>
       IsOurs(service[i], row, before) && Field(service[i], "invocation_id") == invocation
  }

  /**
  Elsewhere: the only call carried the trace, the only approval is of that call, the security log has
  that approval's request, the journal has a single invocation for the trace, and a result of that
  call reports it.
  */
  ghost predicate ApprovedChain(r: Reader, row: Row, service: seq<Json>, before: Service, expectedSha: string,
                                callId: Json, invocation: Json) {
    && SoleCall(r, row, callId) && SoleApproval(r, row, callId) && SoleInvocation(row, service, before, invocation)
    && Outcome(row, service, expectedSha)
    && HasResult(r, row, {callId}, Printed(invocation))
  }

  ghost predicate Linked(r: Reader, row: Row, service: seq<Json>, before: Service, expectedSha: string) {
    if row.phase.name == CrewPhase then exists callId :: CrewChain(r, row, service, callId)
    else exists callId, invocation :: ApprovedChain(r, row, service, before, expectedSha, callId, invocation)
  }

  lemma SingletonOf<T>(s: set<T>, x: T)
    requires |s| == 1 && x in s
    ensures s == {x}
  {
    assert |s - {x}| == 0;
  }

  lemma CallIdsMembers(events: seq<Event>)
    ensures forall i :: 0 <= i < |events| && IsCall(events[i]) ==> CallId(events[i]) in CallIds(events)
    ensures forall x :: x in CallIds(events) ==>
      exists i :: 0 <= i < |events| && IsCall(events[i]) && CallId(events[i]) == x
  {
  }

  /** One identifier, equal on both sides, is one call that carried the trace. */
  lemma SoleCallSets(r: Reader, row: Row, callId: Json)
    ensures SoleCall(r, row, callId) <==>
            CallIds(row.events) == {callId} && TraceIds(r, row.events, row.phase.trace) == {callId}
  {
    var calls, traces := CallIds(row.events), TraceIds(r, row.events, row.phase.trace);
    CallIdsMembers(row.events);
    assert traces <= calls;
    if SoleCall(r, row, callId) {
      assert calls == {callId};
      var i :| 0 <= i < |row.events| && Traced(r, row.events[i], row.phase.trace) && CallId(row.events[i]) == callId;
      assert callId in traces;
    }
    if calls == {callId} && traces == {callId} {
      assert callId in traces && callId in calls;
    }
  }

  lemma BlockedSets(r: Reader, row: Row, callId: Json)
    requires SoleCall(r, row, callId)
    ensures BlockedCall(r, row, callId) <==> BlockedIds(r, row.events, row.phase.trace) == {callId}
  {
    var blocked := BlockedIds(r, row.events, row.phase.trace);
    assert blocked <= {callId};
    assert callId in blocked <==> BlockedCall(r, row, callId);
  }

  predicate OneExactCall(calls: set<Json>, traces: set<Json>) {
    |calls| == 1 && calls == traces
  }

  lemma OneExactCallIsSole(r: Reader, row: Row) returns (callId: Json)
    requires OneExactCall(CallIds(row.events), TraceIds(r, row.events, row.phase.trace))
    ensures SoleCall(r, row, callId) && CallIds(row.events) == {callId}
  {
    callId :| callId in CallIds(row.events);
    SingletonOf(CallIds(row.events), callId);
    SoleCallSets(r, row, callId);
  }

  lemma CrewChecksAreChain(r: Reader, row: Row, service: seq<Json>)
    ensures
      var traces := TraceIds(r, row.events, row.phase.trace);
      (service == [] && row.approvals == [] && |Where(row.sel, IsDenial)| == 1
       && OneExactCall(CallIds(row.events), traces) && BlockedIds(r, row.events, row.phase.trace) == traces)
      <==> exists callId :: CrewChain(r, row, service, callId)
  {
    var traces := TraceIds(r, row.events, row.phase.trace);
    if OneExactCall(CallIds(row.events), traces) {
      var callId := OneExactCallIsSole(r, row);
      BlockedSets(r, row, callId);
      if BlockedIds(r, row.events, row.phase.trace) == traces && service == [] && row.approvals == []
         && |Where(row.sel, IsDenial)| == 1 {
        assert CrewChain(r, row, service, callId);
      }
    }
    if callId :| CrewChain(r, row, service, callId) {
      SoleCallSets(r, row, callId);
      BlockedSets(r, row, callId);
      assert |{callId}| == 1;
    }
  }

  predicate ServiceChecks(row: Row, service: seq<Json>, before: Service) {
    && (forall i :: 0 <= i < |service| ==> IsOurs(service[i], row, before))
    && |Invocations(service)| == 1 && Null !in Invocations(service)
  }

  predicate ApprovalChecks(r: Reader, row: Row) {
    && |row.approvals| == 1 && row.approvals[0].decision.requestId in NativeIds(r, row.sel)
    && ApprovedExactInput(r, row.approvals[0], row.phase.trace)
  }

  predicate CallChecks(r: Reader, row: Row)
    requires |row.approvals| == 1
  {
    && OneExactCall(CallIds(row.events), TraceIds(r, row.events, row.phase.trace))
    && {ApprovedCall(r, row.approvals[0])} == TraceIds(r, row.events, row.phase.trace)
  }

  /** The identity checks of an approved phase, before its result is looked for. */
  predicate IdentityChecks(r: Reader, row: Row, service: seq<Json>, before: Service, expectedSha: string) {
    ServiceChecks(row, service, before) && ApprovalChecks(r, row) && CallChecks(r, row) &&
      Outcome(row, service, expectedSha)
  }

  lemma SingleInvocation(service: seq<Json>)
    requires |Invocations(service)| == 1
    ensures service != []
    ensures forall i :: 0 <= i < |service| ==> Field(service[i], "invocation_id") == Field(service[0], "invocation_id")
  {
    assert service == [] ==> Invocations(service) == {};
    if service != [] {
      var x := Field(service[0], "invocation_id");
      assert x in Invocations(service);
      SingletonOf(Invocations(service), x);
      forall i | 0 <= i < |service|
        ensures Field(service[i], "invocation_id") == x
      {
        assert Field(service[i], "invocation_id") in Invocations(service);
      }
    }
  }

  lemma ChecksGiveChain(r: Reader, row: Row, service: seq<Json>, before: Service, expectedSha: string)
    requires IdentityChecks(r, row, service, before, expectedSha)
    ensures
      var callId := ApprovedCall(r, row.approvals[0]);
      && service != []
      && var invocation := Field(service[0], "invocation_id");
      HasResult(r, row, {callId}, Printed(invocation)) ==>
        ApprovedChain(r, row, service, before, expectedSha, callId, invocation)
  {
    var callId := OneExactCallIsSole(r, row);
    assert callId in TraceIds(r, row.events, row.phase.trace);
    assert callId == ApprovedCall(r, row.approvals[0]);
    SingleInvocation(service);
    assert Field(service[0], "invocation_id") in Invocations(service);
    var k :| 0 <= k < |row.sel| && IsApprovalOf(r, row.sel[k], row.approvals[0].decision.requestId);
  }

  lemma SoleApprovalChecks(r: Reader, row: Row, callId: Json)
    requires SoleApproval(r, row, callId)
    ensures ApprovalChecks(r, row)
  {
    var k :| 0 <= k < |row.sel| && IsApprovalOf(r, row.sel[k], row.approvals[0].decision.requestId);
    assert r.codec.str(Field(row.sel[k], "request_id")) in NativeIds(r, row.sel);
  }

  lemma SoleInvocationChecks(row: Row, service: seq<Json>, before: Service, invocation: Json)
    requires SoleInvocation(row, service, before, invocation)
    ensures ServiceChecks(row, service, before) && invocation == Field(service[0], "invocation_id")
  {
    assert Field(service[0], "invocation_id") == invocation;
    assert Invocations(service) == {invocation};
  }

  lemma SoleCallChecks(r: Reader, row: Row, callId: Json)
    requires SoleCall(r, row, callId) && |row.approvals| == 1 && ApprovedCall(r, row.approvals[0]) == callId
    ensures CallChecks(r, row)
  {
    SoleCallSets(r, row, callId);
  }

  lemma ChainGivesChecks(r: Reader, row: Row, service: seq<Json>, before: Service, expectedSha: string,
                         callId: Json, invocation: Json)
    requires ApprovedChain(r, row, service, before, expectedSha, callId, invocation)
    ensures IdentityChecks(r, row, service, before, expectedSha)
    ensures callId == ApprovedCall(r, row.approvals[0]) && invocation == Field(service[0], "invocation_id")
  {
    SoleApprovalChecks(r, row, callId);
    SoleInvocationChecks(row, service, before, invocation);
    SoleCallChecks(r, row, callId);
  }

  /** The row's frames are readable and its chain exists. */
  ghost predicate Passes(r: Reader, row: Row, journal: seq<Json>, before: Service, expectedSha: string) {
    var service := TraceEvents(journal, row.phase.trace);
    Readable(r, row, service) && Linked(r, row, service, before, expectedSha)
  }

  /** The checks of one row, set by set, pass exactly when the chain exists. */
  method EvaluateRow(r: Reader, row: Row, journal: seq<Json>, before: Service, expectedSha: string)
    returns (passed: bool)
    ensures passed <==> Passes(r, row, journal, before, expectedSha)
  {
    var trace := row.phase.trace;
    var service := TraceEvents(journal, trace);
    if !Readable(r, row, service) {
      return false;
    }
    var calls, traces, blocked := CollectIds(r, row.events, trace);
    if row.phase.name == CrewPhase {
      CrewChecksAreChain(r, row, service);
      return service == [] && row.approvals == [] && |Where(row.sel, IsDenial)| == 1
             && OneExactCall(calls, traces) && blocked == traces;
    }
    passed := IdentityChecks(r, row, service, before, expectedSha);
    if passed {
      ChecksGiveChain(r, row, service, before, expectedSha);
      var invocation := Field(service[0], "invocation_id");
      passed := HasResult(r, row, {ApprovedCall(r, row.approvals[0])}, Printed(invocation));
    }
    if callId, invocation :| ApprovedChain(r, row, service, before, expectedSha, callId, invocation) {
      ChainGivesChecks(r, row, service, before, expectedSha, callId, invocation);
    }
  }

  // ----- the whole run

  const PROJECT := "/srv/kirocrew-demo/workspace"

  /** What the run has collected; `processes` are those seen while a card was pending, over all rows. */
  datatype Receipt = Receipt(before: Service, after: Service, journal: seq<Json>, collected: bool, rows: seq<Row>,
                             integrity: Json, processes: seq<Json>)

  /** The log verifies: some records, all of them valid, none tampered with. */
  predicate IsIntact(reply: Json) {
    var total := FieldOr(reply, "total", Num(0));
    && Says(reply, "integrity", "ok") && total.Num? && total.n > 0
    && Field(reply, "valid") == total && Field(reply, "tampered") == Num(0)
  }

  predicate InWorkspace(process: Json) { Says(process, "cwd", PROJECT) }

  /** The process is the remote backend, at work in the workspace. */
  predicate IsBackend(r: Reader, process: Json) {
    var exe := FieldOr(process, "exe", Str(""));
    process.Obj? && InWorkspace(process) && exe.Str? && "kiro-cli" <= r.baseName(exe.s)
  }

  /** Where looking at the process raises: not an object, or an executable in the workspace that is not text. */
  predicate IsOpaque(process: Json) {
    !process.Obj? || (InWorkspace(process) && !FieldOr(process, "exe", Str("")).Str?)
  }

  /** `any` stops at the first backend, and at anything it cannot look at. */
  function BackendSeen(r: Reader, processes: seq<Json>): bool {
    processes != [] && !IsOpaque(processes[0]) && (IsBackend(r, processes[0]) || BackendSeen(r, processes[1..]))
  }

  lemma {:induction false} BackendSeenIff(r: Reader, processes: seq<Json>)
    ensures BackendSeen(r, processes) <==>
      exists i ::
        0 <= i < |processes| && IsBackend(r, processes[i]) && forall j :: 0 <= j < i ==> !IsOpaque(processes[j])
  {
    if processes != [] {
      var rest := processes[1..];
      BackendSeenIff(r, rest);
      if i :| 0 <= i < |processes| && IsBackend(r, processes[i]) && forall j :: 0 <= j < i ==> !IsOpaque(processes[j]) {
        if i > 0 {
          assert rest[i - 1] == processes[i];
          assert forall j :: 0 <= j < i - 1 ==> rest[j] == processes[j + 1];
        }
      }
      if BackendSeen(r, rest) && !IsOpaque(processes[0]) {
        var i :| 0 <= i < |rest| && IsBackend(r, rest[i]) && forall j :: 0 <= j < i ==> !IsOpaque(rest[j]);
        assert processes[i + 1] == rest[i];
        assert forall j :: 0 < j < i + 1 ==> processes[j] == rest[j - 1];
      }
    }
  }

  ghost predicate RowPasses(r: Reader, receipt: Receipt, k: nat, expectedSha: string)
    requires k < |receipt.rows|
  {
    Passes(r, receipt.rows[k], receipt.journal, receipt.before, expectedSha)
  }

  /** These are the first of all verdicts. */
  ghost predicate Follows(checks: seq<bool>, verdicts: nat -> bool) {
    forall k: nat :: k < |checks| ==> checks[k] == verdicts(k)
  }

  lemma FollowsOn(checks: seq<bool>, verdicts: nat -> bool, passed: bool)
    requires Follows(checks, verdicts) && passed == verdicts(|checks|)
    ensures Follows(checks + [passed], verdicts)
  {
  }

  /** The loop over the phases: one check per row. */
  method CheckRows(r: Reader, receipt: Receipt, expectedSha: string) returns (checks: seq<bool>)
    ensures |checks| == |receipt.rows|
    ensures forall k :: 0 <= k < |checks| ==> checks[k] == RowPasses(r, receipt, k, expectedSha)
  {
    checks := [];
    ghost var verdicts := (k: nat) => k < |receipt.rows| && RowPasses(r, receipt, k, expectedSha);
    for k := 0 to |receipt.rows|
      invariant |checks| == k && Follows(checks, verdicts)
    {
      var passed := EvaluateRow(r, receipt.rows[k], receipt.journal, receipt.before, expectedSha);
      FollowsOn(checks, verdicts, passed);
      checks := checks + [passed];
    }
  }

  /** The verdict of a run: a stable service, a complete journal, every row, the log's integrity, the backend seen. */
  ghost predicate RunPasses(r: Reader, receipt: Receipt, expectedSha: string) {
    && receipt.before == receipt.after && receipt.collected && IsIntact(receipt.integrity)
    && BackendSeen(r, receipt.processes)
    && forall k :: 0 <= k < |receipt.rows| ==> RowPasses(r, receipt, k, expectedSha)
  }

  method Evaluate(r: Reader, receipt: Receipt, expectedSha: string) returns (passed: bool)
    ensures passed <==> RunPasses(r, receipt, expectedSha)
  {
    if receipt.before != receipt.after || !receipt.collected {
      return false;
    }
    var checks := CheckRows(r, receipt, expectedSha);
    passed := IsIntact(receipt.integrity) && BackendSeen(r, receipt.processes) && false !in checks;
    assert false in checks <==> exists k :: 0 <= k < |checks| && !checks[k];
  }
}
