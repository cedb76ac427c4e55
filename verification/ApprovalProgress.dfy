/**
That the approval protocol can do its work: from any point between turns, a turn whose one card is
honest and which one operator approves runs to its end with that approval in its row of evidence; so
does a turn without a card; and a plan of such turns, one for each phase left, finishes the run.
*/
module ApprovalProgress {
  import opened Wrappers
  import opened JsonValues
  import opened NativeRecords
  import opened ApprovalProtocol
  import opened ApprovalSafety

  // ----- running on from a state

  lemma {:induction false} ReplaySplit(c: Config, s: State, a: seq<Action>, b: seq<Action>)
    ensures Replay(c, s, a + b) == Replay(c, Replay(c, s, a), b)
    decreases |a|
  {
    if a == [] {
      assert a + b == b;
    } else {
      assert (a + b)[1..] == a[1..] + b;
      ReplaySplit(c, Apply(c, s, a[0]), a[1..], b);
    }
  }

  lemma ReplayOne(c: Config, s: State, a: Action)
    ensures Replay(c, s, [a]) == Apply(c, s, a)
  {
    assert [a][1..] == [];
  }

  lemma ReplayTwo(c: Config, s: State, a: Action, b: Action)
    ensures Replay(c, s, [a, b]) == Apply(c, Apply(c, s, a), b)
  {
    assert [a, b][1..] == [b];
    ReplayOne(c, Apply(c, s, a), b);
  }

  lemma ReplayFour(c: Config, s: State, a: Action, b: Action, d: Action, e: Action)
    ensures Replay(c, s, [a, b, d, e]) == Apply(c, Apply(c, Apply(c, Apply(c, s, a), b), d), e)
  {
    assert [a, b, d, e] == [a, b] + [d, e];
    ReplaySplit(c, s, [a, b], [d, e]);
    ReplayTwo(c, s, a, b);
    ReplayTwo(c, Replay(c, s, [a, b]), d, e);
  }

  // ----- between turns

  /** A turn can begin: phases are left, and no file is left over. */
  predicate Fresh(c: Config, s: State) {
    s.pc.Idle? && s.row.None? && PhaseOf(s) < |c.phases| && s.pendingFile == Absent && s.decisionFile == Absent
  }

  /** The turn after its start, waiting for its first frame. */
  function Opened(c: Config, s: State): State
    requires PhaseOf(s) < |c.phases|
  {
    s.(pc := Receiving, started := false, pending := None, calls := map[],
       row := Some(Row(c.phases[PhaseOf(s)], [], [], [])))
  }

  lemma TurnOpens(c: Config, s: State)
    requires Fresh(c, s)
    ensures Replay(c, s, [StartPhase, Step]) == Opened(c, s)
  {
    ReplayTwo(c, s, StartPhase, Step);
  }

  // ----- an honest card

  /** The frame opens the turn and offers a card that shows all of its input, which is exactly the fixed argument. */
  predicate HonestOffer(c: Config, phase: Phase, known: set<string>, f: Frame, held: Held) {
    && Ours(c, f) && Starts(c, phase, f)
    && Judge(c, phase, f, map[], Learned(c, known, f), true) == Offer(held)
    && !held.card.body.redacted && held.card.body.argumentsMatch
  }

  /** The state once the card is displayed. */
  function Displayed(c: Config, s: State, f: Frame, held: Held): State
    requires PhaseOf(s) < |c.phases|
  {
    var known := Learned(c, s.known, f);
    Opened(c, s).(pc := Head, started := true, known := known, pending := Some(held), pendingFile := Full(held.card),
                  row := Some(Row(c.phases[PhaseOf(s)], [], [EventOf(c, known, f)], [])))
  }

  lemma OfferReceived(c: Config, s: State, f: Frame, held: Held)
    requires Fresh(c, s) && HonestOffer(c, c.phases[PhaseOf(s)], s.known, f, held)
    ensures Receive(c, Opened(c, s), f, true) ==
            Displayed(c, s, f, held).(pc := CardOpen, pendingFile := Created(RUNNER))
  {
    var e := EventOf(c, Learned(c, s.known, f), f);
    assert [] + [e] == [e];
  }

  lemma OfferDisplayed(c: Config, s: State, f: Frame, held: Held)
    requires Fresh(c, s) && HonestOffer(c, c.phases[PhaseOf(s)], s.known, f, held)
    ensures Replay(c, Opened(c, s), [Deliver(f, true), Step]) == Displayed(c, s, f, held)
  {
    ReplayTwo(c, Opened(c, s), Deliver(f, true), Step);
    OfferReceived(c, s, f, held);
  }

  // ----- the operator

  /** One `approve` command, start to finish; it is the `i`-th command of the run. */
  function Command(card: Card, i: nat): seq<Action> {
    [Operate(Approve, card.body.requestId, card.sha), OperatorStep(i), OperatorStep(i), OperatorStep(i)]
  }

  function HonestOperator(held: Held): Operator {
    Operator(Approve, held.card.body.requestId, held.card.sha, Recorded(held.card))
  }

  function HonestDecision(held: Held): Decision { DecisionOf(HonestOperator(held)) }

  /** The card is one an operator may approve. */
  predicate Approvable(held: Held) {
    && held.card.sha == Sha256(held.card.body) && held.card.body.phase != CrewPhase
    && !held.card.body.redacted && held.card.body.argumentsMatch
  }

  /** The operator has read the card and created its decision file. */
  function Writing(s: State, held: Held): State {
    s.(operators := s.operators + [HonestOperator(held).(stage := Stage.Writing(held.card))],
       decisionFile := Created(|s.operators| + 1))
  }

  function Decided(s: State, held: Held): State {
    s.(operators := s.operators + [HonestOperator(held)], decisionFile := Full(HonestDecision(held)))
  }

  lemma CommandChecks(c: Config, s: State, held: Held)
    requires s.pendingFile == Full(held.card) && s.decisionFile == Absent && Approvable(held)
    ensures
      var i, reading := |s.operators|, HonestOperator(held).(stage := Reading);
      Advance(Advance(s.(operators := s.operators + [reading]), i), i) == Writing(s, held)
  {
    var i, reading := |s.operators|, HonestOperator(held).(stage := Reading);
    var started := s.operators + [reading];
    var checked := s.operators + [reading.(stage := Checked(held.card))];
    assert started[i := checked[i]] == checked;
    assert checked[i := reading.(stage := Stage.Writing(held.card))] == Writing(s, held).operators;
  }

  lemma CommandDecides(c: Config, s: State, held: Held)
    requires s.pendingFile == Full(held.card) && s.decisionFile == Absent && Approvable(held)
    ensures Replay(c, s, Command(held.card, |s.operators|)) == Decided(s, held)
  {
    var i, card := |s.operators|, held.card;
    var next := OperatorStep(i);
    ReplayFour(c, s, Operate(Approve, card.body.requestId, card.sha), next, next, next);
    CommandChecks(c, s, held);
    assert Writing(s, held).operators[i := HonestOperator(held)] == Decided(s, held).operators;
  }

  // ----- the runner's answer

  /** The runner takes the decision up, POSTs it and puts the files away. */
  function Answering(): seq<Action> { [Step, Step] + [Step, Step, Step, Step] }

  function HonestPost(phase: nat, held: Held): Post {
    Post(phase, held.card.body.requestId, Approved, Some(held), Some(HonestDecision(held)), Full(held.card))
  }

  function Answered(s: State, held: Held): State
    requires s.row.Some?
  {
    s.(pc := Receiving, pending := None, pendingFile := Absent, decisionFile := Absent, compared := Full(held.card),
       posts := s.posts + [HonestPost(PhaseOf(s), held)],
       row := Some(s.row.value.(approvals := [Approval(held.card, HonestDecision(held))])))
  }

  /** The card is displayed, and an operator has decided. */
  predicate Awaits(s: State, held: Held) {
    && s.row.Some? && s.row.value.approvals == [] && s.pending == Some(held) && Approvable(held)
    && s.pendingFile == Full(held.card) && s.decisionFile == Full(HonestDecision(held))
  }

  lemma DecisionTaken(c: Config, s: State, held: Held)
    requires s.pc.Head? && Awaits(s, held)
    ensures Replay(c, s, [Step, Step]) == s.(pc := Ready(HonestDecision(held)), compared := Full(held.card))
  {
    ReplayTwo(c, s, Step, Step);
    assert RunnerStep(s) == s.(pc := Read(HonestDecision(held)));
  }

  lemma DecisionPosted(c: Config, s: State, held: Held)
    requires s.pc == Ready(HonestDecision(held)) && Awaits(s, held) && s.compared == Full(held.card)
    ensures Replay(c, s, [Step, Step, Step, Step]) == Answered(s, held)
  {
    var d := HonestDecision(held);
    ReplayFour(c, s, Step, Step, Step, Step);
    var s1 := s.(pc := Sent(d), posts := s.posts + [HonestPost(PhaseOf(s), held)]);
    assert RunnerStep(s) == s1;
    assert s.row.value.approvals + [Approval(held.card, d)] == [Approval(held.card, d)];
    var s2 := s1.(pc := Submitted(d), row := Some(s.row.value.(approvals := [Approval(held.card, d)])));
    assert RunnerStep(s1) == s2;
    var s3 := s2.(pc := Archived(d), decisionFile := Absent);
    assert RunnerStep(s2) == s3;
  }

  lemma AnsweringPosts(c: Config, s: State, held: Held)
    requires s.pc.Head? && Awaits(s, held)
    ensures Replay(c, s, Answering()) == Answered(s, held)
  {
    ReplaySplit(c, s, [Step, Step], [Step, Step, Step, Step]);
    DecisionTaken(c, s, held);
    DecisionPosted(c, s.(pc := Ready(HonestDecision(held)), compared := Full(held.card)), held);
  }

  // ----- frames that only inform

  /** A frame that neither offers a card, nor ends the turn, nor makes the runner raise. */
  predicate Harmless(c: Config, f: Frame) {
    && Ours(c, f) && f.kind != ChatDone && !IsPermission(f)
    && (f.kind == ToolCall ==> Hashable(Field(f.data, "tool_call_id")))
  }

  predicate AllHarmless(c: Config, frames: seq<Frame>) {
    forall i :: 0 <= i < |frames| ==> Harmless(c, frames[i])
  }

  function Listening(frames: seq<Frame>): seq<Action> {
    if frames == [] then [] else Listening(frames[..|frames| - 1]) + [Deliver(frames[|frames| - 1], true), Step]
  }

  function EventsOf(c: Config, known: set<string>, frames: seq<Frame>): (r: seq<Event>)
    ensures |r| == |frames| && forall i :: 0 <= i < |r| ==> r[i] == EventOf(c, known, frames[i])
  {
    seq(|frames|, i requires 0 <= i < |frames| => EventOf(c, known, frames[i]))
  }

  /** The runner waits for a frame of its turn, with no card pending. */
  predicate Listens(c: Config, s: State) {
    s.pc == Receiving && s.row.Some? && s.pending.None? && PhaseOf(s) < |c.phases|
  }

  /** The same state with more frames kept as evidence. */
  function Heard(s: State, events: seq<Event>, calls: map<Json, Json>): State
    requires s.row.Some?
  {
    s.(started := true, calls := calls, row := Some(s.row.value.(events := s.row.value.events + events)))
  }

  lemma ListensOnce(c: Config, s: State, f: Frame) returns (calls: map<Json, Json>)
    requires Listens(c, s) && Harmless(c, f) && (s.started || Starts(c, c.phases[PhaseOf(s)], f))
    ensures Replay(c, s, [Deliver(f, true), Step]) == Heard(s, [EventOf(c, s.known, f)], calls)
  {
    var callId := Field(f.data, "tool_call_id");
    calls := if f.kind == ToolCall && Truthy(callId) then s.calls[callId := c.clean(s.known, f.data)] else s.calls;
    ReplayTwo(c, s, Deliver(f, true), Step);
    assert Receive(c, s, f, true) == Heard(s, [EventOf(c, s.known, f)], calls).(pc := Head);
  }

  lemma HeardMore(c: Config, s: State, init: seq<Frame>, f: Frame, before: map<Json, Json>, calls: map<Json, Json>)
    requires s.row.Some?
    ensures Heard(Heard(s, EventsOf(c, s.known, init), before), [EventOf(c, s.known, f)], calls)
            == Heard(s, EventsOf(c, s.known, init + [f]), calls)
  {
    assert s.row.value.events + EventsOf(c, s.known, init) + [EventOf(c, s.known, f)]
        == s.row.value.events + EventsOf(c, s.known, init + [f]);
  }

  lemma ListensOn(c: Config, s: State, init: seq<Frame>, f: Frame)
    ensures Replay(c, s, Listening(init + [f])) == Replay(c, Replay(c, s, Listening(init)), [Deliver(f, true), Step])
  {
    assert (init + [f])[..|init|] == init;
    ReplaySplit(c, s, Listening(init), [Deliver(f, true), Step]);
  }

  lemma {:induction false} ListeningHears(c: Config, s: State, frames: seq<Frame>) returns (calls: map<Json, Json>)
    requires Listens(c, s) && s.started && AllHarmless(c, frames)
    ensures Replay(c, s, Listening(frames)) == Heard(s, EventsOf(c, s.known, frames), calls)
    decreases |frames|
  {
    if frames == [] {
      calls := s.calls;
      assert s.row.value.events + EventsOf(c, s.known, frames) == s.row.value.events;
    } else {
      var init, f := frames[..|frames| - 1], frames[|frames| - 1];
      var before := ListeningHears(c, s, init);
      assert frames == init + [f];
      ListensOn(c, s, init, f);
      calls := ListensOnce(c, Heard(s, EventsOf(c, s.known, init), before), f);
      HeardMore(c, s, init, f, before, calls);
    }
  }

  // ----- the end of a turn

  /** The last frame of the turn, and the log rows read after it. */
  function Closing(last: Frame, sel: seq<Json>): seq<Action> { [Deliver(last, false), EndPhase(sel)] }

  /** The phase is over, with this row; nothing else has changed. */
  predicate Ends(c: Config, s: State, t: State, row: Row) {
    && t.done == s.done + [row] && t.row.None? && t.pc == (if |t.done| == |c.phases| then Finished else Idle)
    && t.posts == s.posts && t.operators == s.operators && t.known == s.known
    && t.strays == s.strays && t.tampered == s.tampered
    && t.pendingFile == s.pendingFile && t.decisionFile == s.decisionFile
  }

  lemma ClosingEnds(c: Config, s: State, last: Frame, sel: seq<Json>)
    requires Listens(c, s) && s.started && Ours(c, last) && last.kind == ChatDone
    ensures
      var row := s.row.value;
      Ends(c, s, Replay(c, s, Closing(last, sel)),
           row.(events := row.events + [EventOf(c, s.known, last)], sel := sel))
  {
    ReplayTwo(c, s, Deliver(last, false), EndPhase(sel));
    assert Receive(c, s, last, false) == Keep(c, s, last).(pc := Collecting);
  }

  /** From any state that listens, harmless frames and the end of the turn file the row with all of them. */
  lemma RestOfTurn(c: Config, s: State, frames: seq<Frame>, last: Frame, sel: seq<Json>)
    requires Listens(c, s) && s.started && AllHarmless(c, frames) && Ours(c, last) && last.kind == ChatDone
    ensures
      var row := s.row.value;
      Ends(c, s, Replay(c, s, Listening(frames) + Closing(last, sel)),
           row.(events := row.events + EventsOf(c, s.known, frames + [last]), sel := sel))
  {
    ReplaySplit(c, s, Listening(frames), Closing(last, sel));
    var calls := ListeningHears(c, s, frames);
    var heard := EventsOf(c, s.known, frames);
    ClosingEnds(c, Heard(s, heard, calls), last, sel);
    var events := s.row.value.events;
    assert events + heard + [EventOf(c, s.known, last)] == events + EventsOf(c, s.known, frames + [last]);
  }

  // ----- whole turns

  /** A turn that goes well: with one card that is approved, or with none. */
  datatype Turn =
    | Honest(f: Frame, held: Held, frames: seq<Frame>, last: Frame, sel: seq<Json>)
    | Uneventful(f: Frame, frames: seq<Frame>, last: Frame, sel: seq<Json>)

  predicate Fits(c: Config, phase: Phase, known: set<string>, turn: Turn) {
    && AllHarmless(c, turn.frames) && Ours(c, turn.last) && turn.last.kind == ChatDone
    && match turn
       case Honest(f, held, _, _, _) => HonestOffer(c, phase, known, f, held)
       case Uneventful(f, _, _, _) => Harmless(c, f) && Starts(c, phase, f)
  }

  function Rest(turn: Turn): seq<Action> { Listening(turn.frames) + Closing(turn.last, turn.sel) }

  function ActionsOf(turn: Turn, operators: nat): seq<Action> {
    [StartPhase, Step] + ([Deliver(turn.f, true), Step] +
      if turn.Honest? then Command(turn.held.card, operators) + (Answering() + Rest(turn)) else Rest(turn))
  }

  /** The row the turn leaves: every frame it kept, and the approval if there was a card. */
  function RowOf(c: Config, phase: Phase, known: set<string>, turn: Turn): Row {
    Row(phase, if turn.Honest? then [Approval(turn.held.card, HonestDecision(turn.held))] else [],
        EventsOf(c, Learned(c, known, turn.f), [turn.f] + turn.frames + [turn.last]), turn.sel)
  }

  function PostsOf(phase: nat, turn: Turn): seq<Post> {
    if turn.Honest? then [HonestPost(phase, turn.held)] else []
  }

  function OperatorsOf(turn: Turn): seq<Operator> {
    if turn.Honest? then [HonestOperator(turn.held)] else []
  }

  /** What one such turn does to the run, and that it leaves no file behind. */
  predicate Completes(c: Config, s: State, t: State, turn: Turn)
    requires PhaseOf(s) < |c.phases|
  {
    && t.done == s.done + [RowOf(c, c.phases[PhaseOf(s)], s.known, turn)]
    && t.row.None? && t.pc == (if |t.done| == |c.phases| then Finished else Idle)
    && t.posts == s.posts + PostsOf(PhaseOf(s), turn) && t.operators == s.operators + OperatorsOf(turn)
    && t.known == Learned(c, s.known, turn.f) && t.strays == s.strays && t.tampered == s.tampered
    && t.pendingFile == Absent && t.decisionFile == Absent
  }

  lemma EventsInOrder(c: Config, known: set<string>, f: Frame, frames: seq<Frame>, last: Frame)
    ensures [EventOf(c, known, f)] + EventsOf(c, known, frames + [last]) == EventsOf(c, known, [f] + frames + [last])
  {
  }

  /** Whatever follows the approval runs on from the answered turn. */
  lemma ApprovalThen(c: Config, s: State, f: Frame, held: Held, rest: seq<Action>)
    requires Fresh(c, s) && HonestOffer(c, c.phases[PhaseOf(s)], s.known, f, held) && Approvable(held)
    ensures
      var shown := Displayed(c, s, f, held);
      Replay(c, Opened(c, s), [Deliver(f, true), Step] + (Command(held.card, |s.operators|) + (Answering() + rest)))
      == Replay(c, Answered(Decided(shown, held), held), rest)
  {
    var shown := Displayed(c, s, f, held);
    var command := Command(held.card, |s.operators|);
    ReplaySplit(c, Opened(c, s), [Deliver(f, true), Step], command + (Answering() + rest));
    OfferDisplayed(c, s, f, held);
    ReplaySplit(c, shown, command, Answering() + rest);
    CommandDecides(c, shown, held);
    ReplaySplit(c, Decided(shown, held), Answering(), rest);
    AnsweringPosts(c, Decided(shown, held), held);
  }

  lemma OfferIsApprovable(c: Config, k: nat, known: set<string>, f: Frame, held: Held)
    requires k < |c.phases| && HonestOffer(c, c.phases[k], known, f, held)
    ensures Approvable(held)
  {
    OfferFaithful(c, k, f, map[], Learned(c, known, f), true);
  }

  /**
  From any point between turns: an honest card, approved by one operator, and the end of the turn
  complete the phase.
  */
  lemma HonestTurnCompletes(c: Config, s: State, turn: Turn)
    requires Fresh(c, s) && turn.Honest? && Fits(c, c.phases[PhaseOf(s)], s.known, turn)
    ensures Completes(c, s, Replay(c, s, ActionsOf(turn, |s.operators|)), turn)
  {
    var f, held, known := turn.f, turn.held, Learned(c, s.known, turn.f);
    var answered := Answered(Decided(Displayed(c, s, f, held), held), held);
    var rest := Command(held.card, |s.operators|) + (Answering() + Rest(turn));
    ReplaySplit(c, s, [StartPhase, Step], [Deliver(f, true), Step] + rest);
    TurnOpens(c, s);
    OfferIsApprovable(c, PhaseOf(s), s.known, f, held);
    ApprovalThen(c, s, f, held, Rest(turn));
    RestOfTurn(c, answered, turn.frames, turn.last, turn.sel);
    EventsInOrder(c, known, f, turn.frames, turn.last);
  }

  lemma UneventfulStarts(c: Config, s: State, f: Frame, rest: seq<Action>) returns (calls: map<Json, Json>)
    requires Fresh(c, s) && Harmless(c, f) && Starts(c, c.phases[PhaseOf(s)], f)
    ensures Replay(c, s, [StartPhase, Step] + ([Deliver(f, true), Step] + rest)) ==
            Replay(c, Heard(Opened(c, s), [EventOf(c, s.known, f)], calls), rest)
  {
    ReplaySplit(c, s, [StartPhase, Step], [Deliver(f, true), Step] + rest);
    TurnOpens(c, s);
    ReplaySplit(c, Opened(c, s), [Deliver(f, true), Step], rest);
    calls := ListensOnce(c, Opened(c, s), f);
  }

  /** From any point between turns: a turn in which no card is offered completes with nothing approved or POSTed. */
  lemma QuietTurnCompletes(c: Config, s: State, turn: Turn)
    requires Fresh(c, s) && turn.Uneventful? && Fits(c, c.phases[PhaseOf(s)], s.known, turn)
    ensures Completes(c, s, Replay(c, s, ActionsOf(turn, |s.operators|)), turn)
  {
    var f := turn.f;
    var calls := UneventfulStarts(c, s, f, Rest(turn));
    RestOfTurn(c, Heard(Opened(c, s), [EventOf(c, s.known, f)], calls), turn.frames, turn.last, turn.sel);
    EventsInOrder(c, s.known, f, turn.frames, turn.last);
    assert [] + [EventOf(c, s.known, f)] == [EventOf(c, s.known, f)];
  }

  // ----- whole runs

  /** One turn for each phase from the `k`-th on, each fitting its phase and what was learned before it. */
  predicate PlanFits(c: Config, k: nat, known: set<string>, turns: seq<Turn>)
    decreases |turns|
  {
    if turns == [] then k == |c.phases|
    else k < |c.phases| && Fits(c, c.phases[k], known, turns[0])
         && PlanFits(c, k + 1, Learned(c, known, turns[0].f), turns[1..])
  }

  function PlanActions(turns: seq<Turn>, operators: nat): seq<Action>
    decreases |turns|
  {
    if turns == [] then []
    else ActionsOf(turns[0], operators) + PlanActions(turns[1..], operators + |OperatorsOf(turns[0])|)
  }

  function PlanRows(c: Config, k: nat, known: set<string>, turns: seq<Turn>): seq<Row>
    requires PlanFits(c, k, known, turns)
    decreases |turns|
  {
    if turns == [] then []
    else [RowOf(c, c.phases[k], known, turns[0])] + PlanRows(c, k + 1, Learned(c, known, turns[0].f), turns[1..])
  }

  function PlanPosts(k: nat, turns: seq<Turn>): seq<Post>
    decreases |turns|
  {
    if turns == [] then [] else PostsOf(k, turns[0]) + PlanPosts(k + 1, turns[1..])
  }

  /** The plan is carried out: all its rows are filed, exactly its honest cards were POSTed, no file is left. */
  predicate Finishes(c: Config, s: State, t: State, turns: seq<Turn>)
    requires PlanFits(c, PhaseOf(s), s.known, turns)
  {
    && t.pc.Finished? && t.done == s.done + PlanRows(c, PhaseOf(s), s.known, turns)
    && t.posts == s.posts + PlanPosts(PhaseOf(s), turns)
    && t.strays == s.strays && t.tampered == s.tampered && t.pendingFile == Absent && t.decisionFile == Absent
  }

  lemma TurnCompletes(c: Config, s: State, turn: Turn)
    requires Fresh(c, s) && Fits(c, c.phases[PhaseOf(s)], s.known, turn)
    ensures Completes(c, s, Replay(c, s, ActionsOf(turn, |s.operators|)), turn)
  {
    if turn.Honest? { HonestTurnCompletes(c, s, turn); } else { QuietTurnCompletes(c, s, turn); }
  }

  lemma LastTurnFinishes(c: Config, s: State, t: State, turns: seq<Turn>)
    requires |turns| == 1 && PlanFits(c, PhaseOf(s), s.known, turns) && Completes(c, s, t, turns[0])
    ensures Finishes(c, s, t, turns)
  {
    assert turns[1..] == [];
  }

  lemma Associate<T>(a: seq<T>, b: seq<T>, d: seq<T>)
    ensures a + b + d == a + (b + d)
  {
  }

  /** A plan is its first turn and the plan for the rest. */
  lemma PlanUnfolds(c: Config, k: nat, known: set<string>, turns: seq<Turn>)
    requires turns != [] && PlanFits(c, k, known, turns)
    ensures k < |c.phases| && Fits(c, c.phases[k], known, turns[0])
    ensures PlanFits(c, k + 1, Learned(c, known, turns[0].f), turns[1..])
    ensures PlanRows(c, k, known, turns) ==
            [RowOf(c, c.phases[k], known, turns[0])] + PlanRows(c, k + 1, Learned(c, known, turns[0].f), turns[1..])
    ensures PlanPosts(k, turns) == PostsOf(k, turns[0]) + PlanPosts(k + 1, turns[1..])
  {
  }

  lemma TurnThenRest(c: Config, s: State, mid: State, t: State, turns: seq<Turn>)
    requires |turns| > 1 && PlanFits(c, PhaseOf(s), s.known, turns) && Completes(c, s, mid, turns[0])
    requires Finishes(c, mid, t, turns[1..])
    ensures Finishes(c, s, t, turns)
  {
    PlanUnfolds(c, PhaseOf(s), s.known, turns);
    var row := RowOf(c, c.phases[PhaseOf(s)], s.known, turns[0]);
    Associate(s.done, [row], PlanRows(c, PhaseOf(mid), mid.known, turns[1..]));
    Associate(s.posts, PostsOf(PhaseOf(s), turns[0]), PlanPosts(PhaseOf(mid), turns[1..]));
  }

  /** The rest of the plan can begin where the turn has ended. */
  lemma RestFits(c: Config, s: State, mid: State, turns: seq<Turn>)
    requires |turns| > 1 && PlanFits(c, PhaseOf(s), s.known, turns) && Completes(c, s, mid, turns[0])
    ensures Fresh(c, mid) && PlanFits(c, PhaseOf(mid), mid.known, turns[1..])
    ensures |mid.operators| == |s.operators| + |OperatorsOf(turns[0])|
  {
    PlanUnfolds(c, PhaseOf(s), s.known, turns);
    PlanUnfolds(c, PhaseOf(mid), mid.known, turns[1..]);
  }

  lemma PlanSplits(turns: seq<Turn>, operators: nat)
    requires turns != []
    ensures PlanActions(turns, operators) ==
            ActionsOf(turns[0], operators) + PlanActions(turns[1..], operators + |OperatorsOf(turns[0])|)
  {
  }

  lemma NoTurnsLeft(c: Config, s: State, operators: nat)
    ensures Replay(c, s, PlanActions([], operators)) == s
  {
  }

  lemma RunsOn(c: Config, s: State, first: seq<Action>, rest: seq<Action>, all: seq<Action>)
    requires all == first + rest
    ensures Replay(c, s, all) == Replay(c, Replay(c, s, first), rest)
  {
    ReplaySplit(c, s, first, rest);
  }

  lemma PlanMeets(c: Config, s: State, mid: State, turns: seq<Turn>)
    requires turns != [] && mid == Replay(c, s, ActionsOf(turns[0], |s.operators|))
    requires |mid.operators| == |s.operators| + |OperatorsOf(turns[0])|
    ensures Replay(c, s, PlanActions(turns, |s.operators|)) == Replay(c, mid, PlanActions(turns[1..], |mid.operators|))
  {
    var n := |s.operators|;
    PlanSplits(turns, n);
    RunsOn(c, s, ActionsOf(turns[0], n), PlanActions(turns[1..], |mid.operators|), PlanActions(turns, n));
  }

  lemma {:induction false} RestFinishes(c: Config, s: State, mid: State, turns: seq<Turn>)
    requires turns != [] && PlanFits(c, PhaseOf(s), s.known, turns) && Completes(c, s, mid, turns[0])
    ensures Finishes(c, s, Replay(c, mid, PlanActions(turns[1..], |mid.operators|)), turns)
    decreases |turns|, 0
  {
    if |turns| == 1 {
      NoTurnsLeft(c, mid, |mid.operators|);
      LastTurnFinishes(c, s, mid, turns);
    } else {
      RestFits(c, s, mid, turns);
      PlanFinishes(c, mid, turns[1..]);
      TurnThenRest(c, s, mid, Replay(c, mid, PlanActions(turns[1..], |mid.operators|)), turns);
    }
  }

  /** From any point between turns, a fitting plan finishes the run. */
  lemma {:induction false} PlanFinishes(c: Config, s: State, turns: seq<Turn>)
    requires turns != [] && Fresh(c, s) && PlanFits(c, PhaseOf(s), s.known, turns)
    ensures Finishes(c, s, Replay(c, s, PlanActions(turns, |s.operators|)), turns)
    decreases |turns|, 1
  {
    PlanUnfolds(c, PhaseOf(s), s.known, turns);
    TurnCompletes(c, s, turns[0]);
    var mid := Replay(c, s, ActionsOf(turns[0], |s.operators|));
    RestFinishes(c, s, mid, turns);
    PlanMeets(c, s, mid, turns);
  }

  /** The whole run, from its first action. */
  lemma WholeRunFinishes(c: Config, turns: seq<Turn>)
    requires turns != [] && PlanFits(c, 0, {}, turns)
    ensures Finishes(c, INITIAL, Run(c, PlanActions(turns, 0)), turns)
  {
    PlanFinishes(c, INITIAL, turns);
  }
}
