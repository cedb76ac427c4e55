/**
The approval protocol between the evidence runner (`Runner.phase`) and separate operator processes
(`approve`), which share two files: `pending.json` and `decision.json`. One action is one atomic file
or network effect; a run is any sequence of actions, so every interleaving is a run. Frames are
arbitrary, any runner step may raise, operator processes may stall anywhere, and the environment may
also leave stray decision files or tamper with the pending card.
*/
module ApprovalProtocol {
  import opened Wrappers
  import opened JsonValues
  import opened NativeRecords

  // ----- state

  /** A file: absent, created exclusively by some process but not yet written, or readable. */
  datatype File<+T> = Absent | Created(owner: nat) | Full(value: T)

  /** The runner's own owner number for files it creates. */
  const RUNNER := 0

  datatype Frame = Frame(kind: Kind, data: Value)

  datatype Command = Approve | Reject

  datatype Stage = Reading | Checked(card: Card) | Writing(card: Card) | Recorded(card: Card) | Refused

  /** One `approve` or `reject` command line and how far it has got. */
  datatype Operator = Operator(command: Command, requestId: string, sha: Digest, stage: Stage)

  datatype Pc =
    | Idle                        // no turn is open
    | Head                        // top of the receive loop
    | Read(decision: Decision)    // decision.json parsed
    | Ready(decision: Decision)   // decision checked against the card in memory and on disk
    | Sent(decision: Decision)    // POST issued
    | Submitted(decision: Decision)
    | Archived(decision: Decision) // decision.json renamed away
    | Receiving                   // waiting for a frame
    | CardOpen                    // pending.json created, not yet written
    | Collecting                  // the turn ended; its evidence is being read
    | Finished
    | Failed

  /** A card the runner holds, with the raw frame data it was made from and the identifiers known by then. */
  datatype Held = Held(card: Card, raw: Value, known: set<string>)

  /** A POST to the slot's approve route; `disk` is what `pending.json` held when it was compared. */
  datatype Post = Post(phase: nat, requestId: string, verb: Verb, held: Option<Held>, decision: Option<Decision>,
                       disk: File<Card>)

  datatype State = State(
    pc: Pc, done: seq<Row>, row: Option<Row>, started: bool, pending: Option<Held>, calls: map<Json, Json>,
    known: set<string>,
    pendingFile: File<Card>, decisionFile: File<Decision>, compared: File<Card>,
    posts: seq<Post>, operators: seq<Operator>, strays: bool, tampered: bool)

  /**
  `clean` is what the sanitizer makes of a frame's data and `hides` whether it would hide part of a
  tool input, given the request identifiers it has been told to leave alone. `NativeSettings` supplies both.
  */
  datatype Config = Config(
    codec: Library, clean: (set<string>, Json) -> Json, hides: (set<string>, Json) -> bool,
    slot: string, phases: seq<Phase>)

  const INITIAL := State(Idle, [], None, false, None, map[], {}, Absent, Absent, Absent, [], [], false, false)

  // ----- actions

  datatype Action =
    | StartPhase
    | Step                                   // the runner's next internal step
    | Deliver(frame: Frame, running: bool)   // a text frame; `running` answers the read after chat_done
    | Quiet                                  // receive timed out, or a frame that is not ours
    | Raise                                  // any runner exception or the turn deadline
    | EndPhase(sel: seq<Json>)
    | Operate(command: Command, requestId: string, sha: Digest)
    | OperatorStep(i: nat)
    | StrayDecision(decisionFile: File<Decision>)
    | Tamper(cardFile: File<Card>)

  function Fail(s: State): State { s.(pc := Failed) }

  /** The index of the phase that is open or comes next. */
  function PhaseOf(s: State): nat { |s.done| }

  /** Opening a turn: a fresh row, nothing pending, the user message admitted. */
  function Start(c: Config, s: State): State {
    if s.pc != Idle || PhaseOf(s) >= |c.phases| then s
    else s.(pc := Head, started := false, pending := None, calls := map[],
            row := Some(Row(c.phases[PhaseOf(s)], [], [], [])))
  }

  /** The checks between reading `decision.json` and the POST. */
  predicate DecisionAccepted(held: Held, d: Decision, disk: File<Card>) {
    && disk == Full(held.card)
    && d.requestId == held.card.body.requestId && d.sha == held.card.sha
    && d.verb != Unknown && d.reviewed
    && (d.verb == Approved ==> !held.card.body.redacted && held.card.body.argumentsMatch)
  }

  function OnHead(s: State): State {
    if s.pending.None? || s.decisionFile == Absent then s.(pc := Receiving)
    else if s.decisionFile.Full? then s.(pc := Read(s.decisionFile.value))
    else Fail(s)
  }

  function OnRead(s: State, d: Decision): State {
    if s.pending.Some? && DecisionAccepted(s.pending.value, d, s.pendingFile)
    then s.(pc := Ready(d), compared := s.pendingFile)
    else Fail(s)
  }

  function OnReady(s: State, d: Decision): State {
    s.(pc := Sent(d), posts := s.posts + [Post(PhaseOf(s), d.requestId, d.verb, s.pending, Some(d), s.compared)])
  }

  function OnSent(s: State, d: Decision): State
    requires s.row.Some?
  {
    if s.pending.None? then Fail(s)
    else s.(pc := Submitted(d),
            row := Some(s.row.value.(approvals := s.row.value.approvals + [Approval(s.pending.value.card, d)])))
  }

  function OnSubmitted(s: State, d: Decision): State {
    if s.decisionFile == Absent then Fail(s) else s.(pc := Archived(d), decisionFile := Absent)
  }

  function OnArchived(s: State, d: Decision): State {
    if s.pendingFile == Absent then Fail(s)
    else s.(pc := if d.verb == Approved then Receiving else Failed, pendingFile := Absent, pending := None)
  }

  function OnCardOpen(s: State): State {
    if s.pending.None? then Fail(s)
    else
      var written := if s.pendingFile == Created(RUNNER) then Full(s.pending.value.card) else s.pendingFile;
      s.(pc := Head, pendingFile := written)
  }

  function RunnerStep(s: State): State {
    if s.row.None? then s else
    match s.pc
    case Head => OnHead(s)
    case Read(d) => OnRead(s, d)
    case Ready(d) => OnReady(s, d)
    case Sent(d) => OnSent(s, d)
    case Submitted(d) => OnSubmitted(s, d)
    case Archived(d) => OnArchived(s, d)
    case CardOpen => OnCardOpen(s)
    case _ => s
  }

  predicate IsPermission(f: Frame) {
    f.kind == ChatMessage && Field(f.data, "role") == Str("permission")
  }

  /** A permission card's request identifier is one the sanitizer leaves alone from then on. */
  function Learned(c: Config, known: set<string>, f: Frame): set<string> {
    var id := c.codec.str(FieldOr(PermissionMeta(c.codec, f.data), "request_id", Str("")));
    if IsPermission(f) && id != "" && |id| <= 150 then known + {id} else known
  }

  function MakeCard(c: Config, phase: Phase, data: Value, calls: map<Json, Json>, known: set<string>): Card {
    var meta := PermissionMeta(c.codec, data);
    var callId := Field(meta, "tool_call_id");
    var body := CardBody(phase.name, c.slot, c.codec.str(Field(meta, "request_id")), phase.tool, phase.trace,
                         c.clean(known, data), if callId in calls then calls[callId] else Null,
                         ExactTraceInput(c.codec, Field(meta, "tool_input"), phase.trace),
                         c.hides(known, FieldOr(meta, "tool_input", Str(""))));
    Card(body, Sha256(body))
  }

  /** What a frame of this turn asks of the runner, judged from the frame alone. */
  datatype Effect =
    | Nothing
    | Refuse                                  // an exception
    | Remember(callId: Json, shown: Json)     // a tool call the card may refer to
    | RejectCrew(requestId: string)           // a permission card in the crew turn
    | Offer(held: Held)                       // a permission card in any other turn
    | EndTurn                                 // chat_done, and the slot is no longer running

  function JudgePermission(c: Config, phase: Phase, f: Frame, calls: map<Json, Json>, known: set<string>): Effect {
    var meta := PermissionMeta(c.codec, f.data);
    var requestId := c.codec.str(Field(meta, "request_id"));
    if Truthy(Field(meta, "resolved")) then Nothing
    else if Field(meta, "request_id") == Null || |requestId| > 150 then Refuse
    else if phase.name == CrewPhase then RejectCrew(requestId)
    else if !Hashable(Field(meta, "tool_call_id")) then Refuse
    else Offer(Held(MakeCard(c, phase, f.data, calls, known), f.data, known))
  }

  function Judge(c: Config, phase: Phase, f: Frame, calls: map<Json, Json>, known: set<string>, running: bool): Effect {
    var callId := Field(f.data, "tool_call_id");
    if f.kind == ToolCall then
      if !Truthy(callId) then Nothing
      else if Hashable(callId) then Remember(callId, c.clean(known, f.data)) else Refuse
    else if IsPermission(f) then JudgePermission(c, phase, f, calls, known)
    else if f.kind == ChatDone && !running then EndTurn
    else Nothing
  }

  function OpenApprovals(s: State): seq<Approval> {
    if s.row.Some? then s.row.value.approvals else []
  }

  /** The containment reply to a crew card: rejected on the spot, and the run fails. */
  function CrewPost(phase: nat, requestId: string): Post {
    Post(phase, requestId, Rejected, None, None, Absent)
  }

  /** Carrying it out: a new card only when the turn has had none, the end only when none is pending. */
  function React(s: State, e: Effect): State {
    match e
    case Nothing => s.(pc := Head)
    case Refuse => Fail(s)
    case Remember(callId, shown) => s.(pc := Head, calls := s.calls[callId := shown])
    case RejectCrew(requestId) => s.(pc := Failed, posts := s.posts + [CrewPost(PhaseOf(s), requestId)])
    case Offer(held) =>
      if s.pending.Some? || OpenApprovals(s) != [] || s.pendingFile != Absent then Fail(s)
      else s.(pc := CardOpen, pending := Some(held), pendingFile := Created(RUNNER))
    case EndTurn => if s.pending.Some? then Fail(s) else s.(pc := Collecting)
  }

  predicate Starts(c: Config, phase: Phase, f: Frame) {
    || (f.kind == ChatMessage && Field(f.data, "role") == Str("user") && Field(f.data, "content") == Str(phase.message))
    || Includes(c.codec.dump(f.data), phase.trace)
  }

  predicate Ours(c: Config, f: Frame) {
    f.data.Obj? && Field(f.data, "slot") == Str(c.slot) && !f.kind.OtherKind?
  }

  function EventOf(c: Config, known: set<string>, f: Frame): Event {
    Event(f.kind, c.clean(known, f.data), f.data, known)
  }

  /** The frame is kept, cleaned, as evidence of the phase it belongs to. */
  function Keep(c: Config, s: State, f: Frame): State
    requires s.row.Some?
  {
    var known := Learned(c, s.known, f);
    s.(started := true, known := known,
       row := Some(s.row.value.(events := s.row.value.events + [EventOf(c, known, f)])))
  }

  function Receive(c: Config, s: State, f: Frame, running: bool): State {
    if s.pc != Receiving || s.row.None? || PhaseOf(s) >= |c.phases| then s
    else
      var phase := c.phases[PhaseOf(s)];
      if !Ours(c, f) || (!s.started && !Starts(c, phase, f)) then s.(pc := Head)
      else
        var kept := Keep(c, s, f);
        React(kept, Judge(c, phase, f, kept.calls, kept.known, running))
  }

  /** The evidence collected after the turn; the next phase, or the end of the run. */
  function End(c: Config, s: State, sel: seq<Json>): State {
    if s.pc != Collecting || s.row.None? then s
    else s.(done := s.done + [s.row.value.(sel := sel)], row := None,
            pc := if |s.done| + 1 == |c.phases| then Finished else Idle)
  }

  // ----- the operator command

  predicate OperatorAccepts(op: Operator, card: Card) {
    && card.body.requestId == op.requestId
    && card.sha == op.sha
    && Sha256(card.body) == op.sha
    && card.body.phase != CrewPhase
    && (op.command == Approve ==> !card.body.redacted && card.body.argumentsMatch)
  }

  function DecisionOf(op: Operator): Decision {
    Decision(op.requestId, op.sha, if op.command == Approve then Approved else Rejected, true)
  }

  function Advance(s: State, i: nat): State {
    if i >= |s.operators| then s else
      var op := s.operators[i];
      match op.stage
      case Reading =>
        var accepted := s.pendingFile.Full? && OperatorAccepts(op, s.pendingFile.value);
        var next := if accepted then Checked(s.pendingFile.value) else Refused;
        s.(operators := s.operators[i := op.(stage := next)])
      case Checked(card) =>
        if s.decisionFile == Absent
        then s.(decisionFile := Created(i + 1), operators := s.operators[i := op.(stage := Writing(card))])
        else s.(operators := s.operators[i := op.(stage := Refused)])
      case Writing(card) =>
        s.(decisionFile := if s.decisionFile == Created(i + 1) then Full(DecisionOf(op)) else s.decisionFile,
           operators := s.operators[i := op.(stage := Recorded(card))])
      case _ => s
  }

  function Apply(c: Config, s: State, a: Action): State {
    match a
    case StartPhase => Start(c, s)
    case Step => RunnerStep(s)
    case Deliver(f, running) => Receive(c, s, f, running)
    case Quiet => if s.pc == Receiving then s.(pc := Head) else s
    case Raise => if s.pc == Finished then s else Fail(s)
    case EndPhase(sel) => End(c, s, sel)
    case Operate(command, requestId, sha) => s.(operators := s.operators + [Operator(command, requestId, sha, Reading)])
    case OperatorStep(i) => Advance(s, i)
    case StrayDecision(file) => s.(decisionFile := file, strays := true)
    case Tamper(file) => s.(pendingFile := file, tampered := true)
  }

  /** Running on from a state. */
  function Replay(c: Config, s: State, actions: seq<Action>): State
    decreases |actions|
  {
    if actions == [] then s else Replay(c, Apply(c, s, actions[0]), actions[1..])
  }

  /** Every interleaving of the runner, the operators and the environment. */
  function Run(c: Config, actions: seq<Action>): State { Replay(c, INITIAL, actions) }
}
