/**
What the evidence runner and the operator's approval command exchange: frames from the native client,
the pending approval card, the operator's decision, and the row of evidence kept per phase.
*/
module NativeRecords {
  import opened Wrappers
  import opened JsonValues

  /** The four turns of a run. */
  datatype PhaseName = AllowPhase | CrewPhase | McpPhase | IamPhase

  datatype Phase = Phase(name: PhaseName, tool: string, trace: string, message: string)

  /** The frame types the runner listens to; everything else is ignored. */
  datatype Kind =
    | ChatMessage | ChatMessageUpdate | ToolCall | ToolResult | ApprovalResolved | ChatDone | ChatStatus | ChatSegment
    | OtherKind(name: string)

  /** `permission_meta`: the `meta` object, else the object nested in `cls`, else nothing. */
  function PermissionMeta(codec: Library, data: Json): Json {
    var meta := Field(data, "meta");
    if meta.Obj? then meta else
      var cls := Field(data, "cls");
      var parsed := if cls.Str? && cls.s != "" then codec.parse(cls.s) else None;
      if parsed.Some? && parsed.value.Obj? then parsed.value else Obj([])
  }

  /** Meta is the object given directly; failing that, the object that nonempty text nests; failing that, nothing. */
  lemma PermissionMetaIs(codec: Library, data: Json, meta: seq<(string, Json)>)
    ensures Field(data, "meta") == Obj(meta) ==> PermissionMeta(codec, data) == Obj(meta)
    ensures !Field(data, "meta").Obj? ==>
      (PermissionMeta(codec, data) == Obj(meta) <==>
       || (exists text :: text != "" && Field(data, "cls") == Str(text) && codec.parse(text) == Some(Obj(meta)))
       || (meta == [] && !exists text, nested ::
             text != "" && Field(data, "cls") == Str(text) && codec.parse(text) == Some(Obj(nested))))
    ensures PermissionMeta(codec, data).Obj?
  {
    if Field(data, "cls").Str? {
      var text := Field(data, "cls").s;
      assert Field(data, "cls") == Str(text);
      if codec.parse(text).Some? && codec.parse(text).value.Obj? {
        assert codec.parse(text) == Some(Obj(codec.parse(text).value.fields));
      }
    }
  }

  /** `exact_trace_input`: an object whose only member is this trace, given directly or as JSON text. */
  predicate ExactTraceInput(codec: Library, value: Json, trace: string) {
    var v := if value.Str? then codec.parse(value.s) else Some(value);
    v == Some(Obj([("trace_id", Str(trace))]))
  }

  /** The text comes from the card itself: everything the operator is shown except the digest. */
  datatype CardBody = CardBody(phase: PhaseName, slot: string, requestId: string, expectedTool: string,
                               expectedTrace: string, nativeCard: Json, relatedCall: Json,
                               argumentsMatch: bool, redacted: bool)

  /** SHA-256 of a card body's canonical JSON, taken to be injective. */
  datatype Digest = Sha256(body: CardBody)

  datatype Card = Card(body: CardBody, sha: Digest)

  datatype Verb = Approved | Rejected | Unknown

  datatype Decision = Decision(requestId: string, sha: Digest, verb: Verb, reviewed: bool)

  datatype Approval = Approval(card: Card, decision: Decision)

  /**
  A frame kept as evidence: its type and its cleaned data. Beside them stand what was cleaned and the
  identifiers that cleaning left alone at that time; no check reads those two.
  */
  datatype Event = Event(kind: Kind, data: Json, raw: Json, known: set<string>)

  datatype Row = Row(phase: Phase, approvals: seq<Approval>, events: seq<Event>, sel: seq<Json>)
}
