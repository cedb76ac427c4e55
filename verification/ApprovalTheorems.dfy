/** The promises of the approval protocol, over every interleaving. */
module ApprovalTheorems {
  import opened Wrappers
  import opened JsonValues
  import opened NativeRecords
  import opened ApprovalProtocol
  import opened ApprovalSafety
  import opened NativeSettings

  /** Exactly this trace and nothing else, as an object or as the text of one. */
  predicate IsTraceInput(codec: Library, input: Json, trace: string) {
    var exact := Obj([("trace_id", Str(trace))]);
    input == exact || (input.Str? && codec.parse(input.s) == Some(exact))
  }

  /** Printed, the input mentions no redaction in any case, and cleaning would not have touched it. */
  predicate IsPlainlyShown(n: Settings, known: set<string>, printed: string) {
    !Includes(n.upper(printed), "REDACT") && n.text(known, printed) == printed
  }

  /**
  What an approving POST may rest on: a non-crew turn, the card in memory equal to the one on disk,
  a decision naming that card by request and digest, a card that shows the cleaned frame, and as the
  frame's own tool input the turn's trace and nothing else, none of which cleaning would have touched.
  */
  ghost predicate ApprovedExactly(n: Settings, p: Post) {
    && p.phase < |n.phases| && n.phases[p.phase].name != CrewPhase
    && p.held.Some? && p.decision.Some?
    && var held, body := p.held.value, p.held.value.card.body;
    && p.disk == Full(held.card)
    && p.requestId == body.requestId == p.decision.value.requestId
    && p.decision.value.sha == Sha256(body)
    && body.phase == n.phases[p.phase].name
    && body.nativeCard == Cleaned(n, held.known, held.raw)
    && var meta := PermissionMeta(n.codec, held.raw);
    && body.requestId == n.codec.str(Field(meta, "request_id"))
    && IsTraceInput(n.codec, Field(meta, "tool_input"), n.phases[p.phase].trace)
    && IsPlainlyShown(n, held.known, n.codec.str(Field(meta, "tool_input")))
  }

  lemma ExactInputIsThere(codec: Library, v: Json, trace: string)
    requires ExactTraceInput(codec, Field(v, "tool_input"), trace)
    ensures FieldOr(v, "tool_input", Str("")) == Field(v, "tool_input")
  {
  }

  lemma VettedIsExact(n: Settings, p: Post)
    requires Vetted(Native(n), p) && p.verb == Approved
    ensures ApprovedExactly(n, p)
  {
    ExactInputIsThere(n.codec, PermissionMeta(n.codec, p.held.value.raw), n.phases[p.phase].trace);
  }

  /**
  A POST either carries out a decision that names the card in memory and on disk and says that the
  operator reviewed it, or is the rejection that answers any card of the crew turn.
  */
  predicate Answers(c: Config, p: Post) {
    && p.phase < |c.phases| && (p.verb == Approved || p.verb == Rejected)
    && match p.decision
       case None => p.held.None? && p.verb == Rejected && c.phases[p.phase].name == CrewPhase
       case Some(d) =>
         && p.held.Some? && c.phases[p.phase].name != CrewPhase
         && var card := p.held.value.card;
         && p.disk == Full(card) && card.sha == Sha256(card.body) && card.body.phase == c.phases[p.phase].name
         && d.verb == p.verb && d.reviewed && d.sha == card.sha && d.requestId == card.body.requestId == p.requestId
         && (p.verb == Approved ==> card.body.argumentsMatch && !card.body.redacted)
  }

  lemma EveryPostAnswers(c: Config, actions: seq<Action>, i: nat)
    requires i < |Run(c, actions).posts|
    ensures Answers(c, Run(c, actions).posts[i])
  {
    EveryRunIsSafe(c, actions);
    assert PostSound(c, Run(c, actions).posts[i]);
  }

  lemma ApprovalsAreExact(n: Settings, actions: seq<Action>, i: nat)
    requires i < |Run(Native(n), actions).posts| && Run(Native(n), actions).posts[i].verb == Approved
    ensures ApprovedExactly(n, Run(Native(n), actions).posts[i])
  {
    var c := Native(n);
    EveryRunIsSafe(c, actions);
    var p := Run(c, actions).posts[i];
    assert PostSound(c, p);
    VettedIsExact(n, p);
  }

  /** No phase is answered twice, whether approved or rejected. */
  lemma AtMostOnePostPerPhase(c: Config, actions: seq<Action>, i: nat, j: nat)
    requires i < j < |Run(c, actions).posts|
    ensures Run(c, actions).posts[i].phase < Run(c, actions).posts[j].phase
  {
    EveryRunIsSafe(c, actions);
  }

  predicate DistinctNames(c: Config) {
    forall i, j :: 0 <= i < j < |c.phases| ==> c.phases[i].name != c.phases[j].name
  }

  /** The digest in a decision pins down the phase it was made for. */
  lemma DecisionNamesPhase(c: Config, actions: seq<Action>, i: nat)
    requires i < |Run(c, actions).posts| && Run(c, actions).posts[i].decision.Some?
    ensures
      var p := Run(c, actions).posts[i];
      p.phase < |c.phases| && p.decision.value.sha.body.phase == c.phases[p.phase].name
  {
    EveryRunIsSafe(c, actions);
    assert PostSound(c, Run(c, actions).posts[i]);
  }

  /** A decision left over from an earlier phase never answers a later one. */
  lemma DecisionsAreNotReplayed(c: Config, actions: seq<Action>, i: nat, j: nat)
    requires DistinctNames(c)
    requires i < j < |Run(c, actions).posts|
    requires Run(c, actions).posts[i].decision.Some? && Run(c, actions).posts[j].decision.Some?
    ensures Run(c, actions).posts[i].decision.value.sha != Run(c, actions).posts[j].decision.value.sha
  {
    AtMostOnePostPerPhase(c, actions, i, j);
    DecisionNamesPhase(c, actions, i);
    DecisionNamesPhase(c, actions, j);
  }

  /** The command read this very card, was given its request and digest, and decided what was POSTed. */
  predicate ReviewedCard(op: Operator, p: Post) {
    && op.command == (if p.verb == Approved then Approve else Reject) && op.stage.Recorded?
    && p.held.Some? && op.stage.card == p.held.value.card
    && op.requestId == p.requestId == op.stage.card.body.requestId
    && op.sha == op.stage.card.sha == Sha256(op.stage.card.body)
    && op.stage.card.body.phase != CrewPhase
    && (p.verb == Approved ==> op.stage.card.body.argumentsMatch && !op.stage.card.body.redacted)
  }

  /**
  Unless some other program writes decision files, behind every decision that is POSTed stands an
  operator's command that read this very card, even if `pending.json` was tampered with meanwhile.
  */
  lemma DecisionsWereReviewed(c: Config, actions: seq<Action>, i: nat)
    requires !Run(c, actions).strays
    requires i < |Run(c, actions).posts| && Run(c, actions).posts[i].decision.Some?
    ensures
      var s := Run(c, actions);
      exists k :: 0 <= k < |s.operators| && ReviewedCard(s.operators[k], s.posts[i])
  {
    EveryRunIsSafe(c, actions);
    var s := Run(c, actions);
    var p := s.posts[i];
    assert PostSound(c, p);
    var d := p.decision.value;
    var k :| 0 <= k < |s.operators| && s.operators[k].stage.Recorded? && DecisionOf(s.operators[k]) == d;
    assert OperatorAccepts(s.operators[k], s.operators[k].stage.card);
    assert ReviewedCard(s.operators[k], p);
  }

  /**
  At the top of the receive loop `pending.json` exists exactly while a card is pending; a turn that
  ends leaves none.
  */
  lemma PendingFileFollowsCard(c: Config, actions: seq<Action>)
    requires !Run(c, actions).tampered
    ensures
      var s := Run(c, actions);
      && (s.pc.Head? ==> s.pendingFile == if s.pending.Some? then Full(s.pending.value.card) else Absent)
      && (s.pc.Collecting? || s.pc.Idle? || s.pc.Finished? ==> s.pendingFile == Absent)
  {
    EveryRunIsSafe(c, actions);
  }

  /**
  A phase that completed normally: nothing for crew, and elsewhere at most one approval, which was
  POSTed as approved and is exact.
  */
  lemma CompletedPhases(n: Settings, actions: seq<Action>, k: nat)
    requires k < |Run(Native(n), actions).done|
    ensures
      var s := Run(Native(n), actions);
      var approvals := s.done[k].approvals;
      && |approvals| <= 1
      && (approvals != [] ==> exists i ::
          IsPostOf(s.posts, i, k, approvals[0]) && s.posts[i].verb == Approved && ApprovedExactly(n, s.posts[i]))
  {
    EveryRunIsSafe(Native(n), actions);
    var s := Run(Native(n), actions);
    var approvals := s.done[k].approvals;
    assert Backed(s.posts, k, approvals) && AllApproved(approvals);
    if approvals != [] {
      var i :| IsPostOf(s.posts, i, k, approvals[0]);
      assert PostSound(Native(n), s.posts[i]);
      assert approvals[0].decision.verb == Approved;
      ApprovalsAreExact(n, actions, i);
    }
  }
}
