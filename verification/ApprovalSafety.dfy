/** What every run of the approval protocol keeps. */
module ApprovalSafety {
  import opened Wrappers
  import opened JsonValues
  import opened NativeRecords
  import opened ApprovalProtocol

  predicate HasDecision(pc: Pc) {
    pc.Read? || pc.Ready? || pc.Sent? || pc.Submitted? || pc.Archived?
  }

  predicate DecisionChecked(pc: Pc) {
    pc.Ready? || pc.Sent? || pc.Submitted? || pc.Archived?
  }

  // ----- shape: a card is in memory exactly when a step may use it

  predicate Shape(c: Config, s: State) {
    && (s.row.Some? ==> |s.done| < |c.phases| && s.row.value.phase == c.phases[|s.done|])
    && (s.row.None? ==> s.pc.Idle? || s.pc.Finished? || s.pc.Failed?)
    && (HasDecision(s.pc) || s.pc.CardOpen? ==> s.pending.Some?)
    && (s.pc.Collecting? || s.row.None? ==> s.pending.None?)
    && (s.pc.Idle? || s.pc.Finished? ==> s.row.None?)
    && (s.pc.Finished? ==> |s.done| == |c.phases|)
  }

  // ----- faith: the card in memory is the frame's, and what was decided was checked against it

  /** The card was made for this phase, from this raw frame, and is not a crew card. */
  predicate Faithful(c: Config, phase: nat, h: Held) {
    var meta := PermissionMeta(c.codec, h.raw);
    && phase < |c.phases|
    && h.card.sha == Sha256(h.card.body)
    && h.card.body.phase == c.phases[phase].name != CrewPhase
    && h.card.body.expectedTrace == c.phases[phase].trace
    && h.card.body.requestId == c.codec.str(Field(meta, "request_id"))
    && h.card.body.argumentsMatch == ExactTraceInput(c.codec, Field(meta, "tool_input"), c.phases[phase].trace)
    && h.card.body.nativeCard == c.clean(h.known, h.raw)
    && h.card.body.redacted == c.hides(h.known, FieldOr(meta, "tool_input", Str("")))
  }

  predicate Faith(c: Config, s: State) {
    && (s.pending.Some? ==> Faithful(c, |s.done|, s.pending.value))
    && (DecisionChecked(s.pc) && s.pending.Some? ==> DecisionAccepted(s.pending.value, s.pc.decision, s.compared))
  }

  // ----- posts: at most one per phase, each behind at most one recorded approval

  /** Everything an approving POST was checked against. */
  predicate Vetted(c: Config, p: Post) {
    && p.held.Some? && p.decision.Some?
    && Faithful(c, p.phase, p.held.value)
    && DecisionAccepted(p.held.value, p.decision.value, p.disk)
    && p.requestId == p.decision.value.requestId && p.verb == p.decision.value.verb
  }

  predicate PostSound(c: Config, p: Post) {
    && p.phase < |c.phases|
    && (Vetted(c, p)
        || (p.verb == Rejected && p.held.None? && p.decision.None? && c.phases[p.phase].name == CrewPhase))
  }

  /** Post `i` is the one that approval `a` of phase `k` records. */
  predicate IsPostOf(posts: seq<Post>, i: int, k: nat, a: Approval) {
    && 0 <= i < |posts|
    && posts[i].phase == k
    && posts[i].held.Some? && posts[i].held.value.card == a.card
    && posts[i].decision == Some(a.decision)
  }

  /** A phase records at most one approval, and a POST stands behind it. */
  ghost predicate Backed(posts: seq<Post>, k: nat, approvals: seq<Approval>) {
    |approvals| <= 1 && (approvals != [] ==> exists i :: IsPostOf(posts, i, k, approvals[0]))
  }

  predicate AllApproved(approvals: seq<Approval>) {
    forall i :: 0 <= i < |approvals| ==> approvals[i].decision.verb == Approved
  }

  /** The newest POST belongs to the open phase. */
  predicate Used(s: State) {
    s.posts != [] && s.posts[|s.posts| - 1].phase == |s.done|
  }

  /** How the open row, the card in memory and the newest POST fit together at each point of a turn. */
  predicate Current(s: State) {
    var approvals := OpenApprovals(s);
    match s.pc
    case Failed => true
    case Sent(d) =>
      approvals == [] && s.pending.Some? &&
        IsPostOf(s.posts, |s.posts| - 1, |s.done|, Approval(s.pending.value.card, d))
    case Submitted(d) => s.pending.Some? && Used(s) && approvals == [Approval(s.pending.value.card, d)]
    case Archived(d) => s.pending.Some? && Used(s) && approvals == [Approval(s.pending.value.card, d)]
    case _ => (Used(s) <==> approvals != []) && AllApproved(approvals) && (s.pending.Some? ==> approvals == [])
  }

  /** Posts are sound, of phases up to this one, at most one for each. */
  predicate InOrder(c: Config, posts: seq<Post>, phase: nat) {
    && (forall i :: 0 <= i < |posts| ==> PostSound(c, posts[i]) && posts[i].phase <= phase)
    && (forall i, j :: 0 <= i < j < |posts| ==> posts[i].phase < posts[j].phase)
  }

  ghost predicate AllBacked(posts: seq<Post>, done: seq<Row>) {
    forall k :: 0 <= k < |done| ==> Backed(posts, k, done[k].approvals) && AllApproved(done[k].approvals)
  }

  ghost predicate Ledger(c: Config, posts: seq<Post>, done: seq<Row>, approvals: seq<Approval>) {
    InOrder(c, posts, |done|) && AllBacked(posts, done) && Backed(posts, |done|, approvals)
  }

  ghost predicate Posts(c: Config, s: State) {
    Ledger(c, s.posts, s.done, OpenApprovals(s)) && Current(s)
  }

  // ----- files: without tampering, pending.json is the card in memory

  predicate Files(s: State) {
    !s.tampered ==>
      match s.pc
      case Failed => true
      case CardOpen => s.pendingFile == Created(RUNNER)
      case _ => s.pendingFile == if s.pending.Some? then Full(s.pending.value.card) else Absent
  }

  // ----- provenance: without stray decision files, an operator process made every decision

  predicate HasReviewed(op: Operator) {
    op.stage.Checked? || op.stage.Writing? || op.stage.Recorded?
  }

  predicate Reviewed(operators: seq<Operator>) {
    forall i :: 0 <= i < |operators| && HasReviewed(operators[i]) ==>
      OperatorAccepts(operators[i], operators[i].stage.card)
  }

  ghost predicate Authored(operators: seq<Operator>, d: Decision) {
    exists i :: 0 <= i < |operators| && operators[i].stage.Recorded? && DecisionOf(operators[i]) == d
  }

  ghost predicate Provenance(s: State) {
    && Reviewed(s.operators)
    && (!s.strays ==>
        && (s.decisionFile.Full? ==> Authored(s.operators, s.decisionFile.value))
        && (HasDecision(s.pc) ==> Authored(s.operators, s.pc.decision))
        && (forall i :: 0 <= i < |s.posts| && s.posts[i].decision.Some? ==>
            Authored(s.operators, s.posts[i].decision.value)))
  }

  // ----- records: every event kept is the cleaned form of what arrived

  predicate IsRecord(c: Config, e: Event) {
    e.data == c.clean(e.known, e.raw) && UniqueThroughout(e.raw)
  }

  predicate AllRecords(c: Config, events: seq<Event>) {
    forall i :: 0 <= i < |events| ==> IsRecord(c, events[i])
  }

  predicate Recorded(c: Config, s: State) {
    && (forall k :: 0 <= k < |s.done| ==> AllRecords(c, s.done[k].events))
    && (s.row.Some? ==> AllRecords(c, s.row.value.events))
  }

  // ----- names: completed rows follow the plan

  predicate Named(c: Config, s: State) {
    |s.done| <= |c.phases| && forall k :: 0 <= k < |s.done| ==> s.done[k].phase == c.phases[k]
  }

  // ----- every run

  ghost predicate Safe(c: Config, s: State) {
    Shape(c, s) && Faith(c, s) && Posts(c, s) && Files(s) && Provenance(s) && Named(c, s) && Recorded(c, s)
  }

  // ----- steps that neither POST nor offer a card nor file a row

  /** Nothing the ledger speaks about moves. */
  predicate LedgerStays(s: State, t: State) {
    t.posts == s.posts && t.done == s.done && OpenApprovals(t) == OpenApprovals(s)
  }

  /** The frames kept so far stay, or a turn begins without any. */
  predicate EventsStay(s: State, t: State) {
    t.row.Some? ==> t.row.value.events == [] || (s.row.Some? && t.row.value.events == s.row.value.events)
  }

  /** The card in memory stays or goes; a decision is checked once, then kept. */
  predicate CardStays(s: State, t: State) {
    && (t.pending.None? || t.pending == s.pending)
    && (DecisionChecked(t.pc) ==>
        && t.pending == s.pending
        && ((DecisionChecked(s.pc) && t.pc.decision == s.pc.decision && t.compared == s.compared)
            || (s.pending.Some? && DecisionAccepted(s.pending.value, t.pc.decision, t.compared))))
  }

  /** Decisions are only taken over from where they were, unless stray files are about. */
  predicate DecisionsStay(s: State, t: State) {
    && t.operators == s.operators
    && (!t.strays ==>
        && !s.strays && (t.decisionFile == s.decisionFile || !t.decisionFile.Full?)
        && (HasDecision(t.pc) ==>
            (HasDecision(s.pc) && t.pc.decision == s.pc.decision) || s.decisionFile == Full(t.pc.decision)))
  }

  predicate Calm(c: Config, s: State, t: State) {
    && LedgerStays(s, t) && EventsStay(s, t) && CardStays(s, t) && DecisionsStay(s, t)
    && Shape(c, t) && Current(t) && Files(t)
  }

  lemma FaithStays(c: Config, s: State, t: State)
    requires Faith(c, s) && CardStays(s, t) && t.done == s.done
    ensures Faith(c, t)
  {
  }

  lemma PostsStay(c: Config, s: State, t: State)
    requires Posts(c, s) && LedgerStays(s, t) && Current(t)
    ensures Posts(c, t)
  {
  }

  lemma ProvenanceStays(s: State, t: State)
    requires Provenance(s) && DecisionsStay(s, t) && t.posts == s.posts
    ensures Provenance(t)
  {
  }

  lemma RecordsStay(c: Config, s: State, t: State)
    requires Recorded(c, s) && EventsStay(s, t) && t.done == s.done
    ensures Recorded(c, t)
  {
  }

  lemma CalmIsSafe(c: Config, s: State, t: State)
    requires Safe(c, s) && Calm(c, s, t)
    ensures Safe(c, t)
  {
    FaithStays(c, s, t);
    PostsStay(c, s, t);
    ProvenanceStays(s, t);
    RecordsStay(c, s, t);
  }

  /** What a single step needs to know of the state it starts from. */
  predicate Steady(c: Config, s: State) {
    Shape(c, s) && Current(s) && Files(s)
  }

  /** Only the runner's place in the turn changes, to one where no decision is at hand. */
  lemma PcIsCalm(c: Config, s: State, pc: Pc)
    requires Steady(c, s) && (s.pc.Head? || s.pc.Receiving?) && s.row.Some? && (pc.Head? || pc.Receiving?)
    ensures Calm(c, s, s.(pc := pc))
  {
  }

  lemma ReadingIsCalm(c: Config, s: State)
    requires Steady(c, s) && s.pc.Head? && s.row.Some? && s.pending.Some? && s.decisionFile.Full?
    ensures Calm(c, s, s.(pc := Read(s.decisionFile.value)))
  {
  }

  lemma FailIsCalm(c: Config, s: State)
    requires Steady(c, s)
    ensures Calm(c, s, Fail(s))
  {
  }

  lemma HeadIsCalm(c: Config, s: State)
    requires Steady(c, s) && s.pc.Head? && s.row.Some?
    ensures Calm(c, s, OnHead(s))
  {
    if s.pending.None? || s.decisionFile == Absent {
      PcIsCalm(c, s, Receiving);
    } else if s.decisionFile.Full? {
      ReadingIsCalm(c, s);
    } else {
      FailIsCalm(c, s);
    }
  }

  lemma HeadIsSafe(c: Config, s: State)
    requires Safe(c, s) && s.pc.Head? && s.row.Some?
    ensures Safe(c, OnHead(s))
  {
    HeadIsCalm(c, s);
    CalmIsSafe(c, s, OnHead(s));
  }

  lemma ReadIsCalm(c: Config, s: State, d: Decision)
    requires Steady(c, s) && s.pc == Read(d) && s.row.Some?
    ensures Calm(c, s, OnRead(s, d))
  {
  }

  lemma ReadIsSafe(c: Config, s: State, d: Decision)
    requires Safe(c, s) && s.pc == Read(d) && s.row.Some?
    ensures Safe(c, OnRead(s, d))
  {
    ReadIsCalm(c, s, d);
    CalmIsSafe(c, s, OnRead(s, d));
  }

  lemma SubmittedIsCalm(c: Config, s: State, d: Decision)
    requires Steady(c, s) && s.pc == Submitted(d) && s.row.Some?
    ensures Calm(c, s, OnSubmitted(s, d))
  {
  }

  lemma SubmittedIsSafe(c: Config, s: State, d: Decision)
    requires Safe(c, s) && s.pc == Submitted(d) && s.row.Some?
    ensures Safe(c, OnSubmitted(s, d))
  {
    SubmittedIsCalm(c, s, d);
    CalmIsSafe(c, s, OnSubmitted(s, d));
  }

  lemma ArchivedIsCalm(c: Config, s: State, d: Decision)
    requires Steady(c, s) && s.pc == Archived(d) && s.row.Some?
    ensures Calm(c, s, OnArchived(s, d))
  {
  }

  lemma ArchivedIsSafe(c: Config, s: State, d: Decision)
    requires Safe(c, s) && s.pc == Archived(d) && s.row.Some?
    ensures Safe(c, OnArchived(s, d))
  {
    ArchivedIsCalm(c, s, d);
    CalmIsSafe(c, s, OnArchived(s, d));
  }

  lemma CardOpenIsCalm(c: Config, s: State)
    requires Steady(c, s) && s.pc.CardOpen? && s.row.Some?
    ensures Calm(c, s, OnCardOpen(s))
  {
  }

  lemma CardOpenIsSafe(c: Config, s: State)
    requires Safe(c, s) && s.pc.CardOpen? && s.row.Some?
    ensures Safe(c, OnCardOpen(s))
  {
    CardOpenIsCalm(c, s);
    CalmIsSafe(c, s, OnCardOpen(s));
  }

  lemma StartIsCalm(c: Config, s: State)
    requires Steady(c, s)
    ensures Calm(c, s, Start(c, s))
  {
  }

  lemma StartIsSafe(c: Config, s: State)
    requires Safe(c, s)
    ensures Safe(c, Start(c, s))
  {
    StartIsCalm(c, s);
    CalmIsSafe(c, s, Start(c, s));
  }

  lemma FailIsSafe(c: Config, s: State)
    requires Safe(c, s)
    ensures Safe(c, Fail(s))
  {
    FailIsCalm(c, s);
    CalmIsSafe(c, s, Fail(s));
  }

  lemma BackToHeadIsCalm(c: Config, s: State)
    requires Steady(c, s) && s.pc.Receiving?
    ensures Calm(c, s, s.(pc := Head))
  {
  }

  lemma BackToHeadIsSafe(c: Config, s: State)
    requires Safe(c, s) && s.pc.Receiving?
    ensures Safe(c, s.(pc := Head))
  {
    BackToHeadIsCalm(c, s);
    CalmIsSafe(c, s, s.(pc := Head));
  }

  lemma OutsideIsCalm(c: Config, s: State, t: State)
    requires Steady(c, s)
    requires t == s.(decisionFile := t.decisionFile, strays := true) ||
      t == s.(pendingFile := t.pendingFile, tampered := true)
    ensures Calm(c, s, t)
  {
  }

  lemma OutsideIsSafe(c: Config, s: State, t: State)
    requires Safe(c, s)
    requires t == s.(decisionFile := t.decisionFile, strays := true) ||
      t == s.(pendingFile := t.pendingFile, tampered := true)
    ensures Safe(c, t)
  {
    OutsideIsCalm(c, s, t);
    CalmIsSafe(c, s, t);
  }

  // ----- the POST and its record

  lemma BackedGrows(posts: seq<Post>, p: Post, k: nat, approvals: seq<Approval>)
    requires Backed(posts, k, approvals)
    ensures Backed(posts + [p], k, approvals)
  {
    if approvals != [] {
      var i :| IsPostOf(posts, i, k, approvals[0]);
      assert IsPostOf(posts + [p], i, k, approvals[0]);
    }
  }

  lemma PhasesRise(posts: seq<Post>, phase: nat, p: Post)
    requires forall i, j :: 0 <= i < j < |posts| ==> posts[i].phase < posts[j].phase
    requires posts != [] ==> posts[|posts| - 1].phase < phase
    requires p.phase == phase
    ensures var more := posts + [p]; forall i, j :: 0 <= i < j < |more| ==> more[i].phase < more[j].phase
  {
    forall i | 0 <= i < |posts|
      ensures posts[i].phase < phase
    {
      if i < |posts| - 1 { assert posts[i].phase < posts[|posts| - 1].phase; }
    }
  }

  lemma InOrderGrows(c: Config, posts: seq<Post>, phase: nat, p: Post)
    requires InOrder(c, posts, phase) && PostSound(c, p) && p.phase == phase
    requires posts != [] ==> posts[|posts| - 1].phase < phase
    ensures InOrder(c, posts + [p], phase)
  {
    PhasesRise(posts, phase, p);
    var more := posts + [p];
    forall i | 0 <= i < |more|
      ensures PostSound(c, more[i]) && more[i].phase <= phase
    {
      assert more[i] == if i < |posts| then posts[i] else p;
    }
  }

  lemma AllBackedGrows(posts: seq<Post>, done: seq<Row>, p: Post)
    requires AllBacked(posts, done)
    ensures AllBacked(posts + [p], done)
  {
    forall k | 0 <= k < |done|
      ensures Backed(posts + [p], k, done[k].approvals)
    {
      BackedGrows(posts, p, k, done[k].approvals);
    }
  }

  lemma LedgerGrows(c: Config, posts: seq<Post>, done: seq<Row>, approvals: seq<Approval>, p: Post)
    requires Ledger(c, posts, done, approvals)
    requires PostSound(c, p) && p.phase == |done|
    requires posts != [] ==> posts[|posts| - 1].phase < |done|
    ensures Ledger(c, posts + [p], done, approvals)
  {
    InOrderGrows(c, posts, |done|, p);
    AllBackedGrows(posts, done, p);
    BackedGrows(posts, p, |done|, approvals);
  }

  lemma NotUsed(c: Config, s: State)
    requires Posts(c, s) && !Used(s)
    ensures s.posts != [] ==> s.posts[|s.posts| - 1].phase < |s.done|
  {
  }

  /** Everything but the ledger is as before. */
  predicate OnlyPosts(s: State, t: State) {
    t == s.(pc := t.pc, posts := t.posts)
  }

  lemma PostedIsSafe(c: Config, s: State, t: State, p: Post)
    requires Safe(c, s) && OnlyPosts(s, t) && t.posts == s.posts + [p]
    requires Ledger(c, t.posts, s.done, OpenApprovals(s)) && Current(t) && Shape(c, t) && Files(t)
    requires DecisionChecked(t.pc) ==> DecisionChecked(s.pc) && t.pc.decision == s.pc.decision
    requires HasDecision(t.pc) ==> HasDecision(s.pc) && t.pc.decision == s.pc.decision
    requires !s.strays && p.decision.Some? ==> Authored(s.operators, p.decision.value)
    ensures Safe(c, t)
  {
  }

  lemma ReadyMoves(c: Config, s: State, d: Decision)
    requires Steady(c, s) && Faith(c, s) && s.pc == Ready(d) && s.row.Some?
    ensures
      var t, p := OnReady(s, d), Post(PhaseOf(s), d.requestId, d.verb, s.pending, Some(d), s.compared);
      && OnlyPosts(s, t) && t.posts == s.posts + [p] && t.pc == Sent(d) && Steady(c, t)
      && PostSound(c, p) && p.phase == |s.done| && !Used(s)
  {
  }

  lemma ReadyIsSafe(c: Config, s: State, d: Decision)
    requires Safe(c, s) && s.pc == Ready(d) && s.row.Some?
    ensures Safe(c, OnReady(s, d))
  {
    var p := Post(PhaseOf(s), d.requestId, d.verb, s.pending, Some(d), s.compared);
    ReadyMoves(c, s, d);
    NotUsed(c, s);
    LedgerGrows(c, s.posts, s.done, OpenApprovals(s), p);
    PostedIsSafe(c, s, OnReady(s, d), p);
  }

  /** The row gets its approval; the POST behind it is the newest one. */
  lemma ApprovedLedger(c: Config, posts: seq<Post>, done: seq<Row>, a: Approval)
    requires Ledger(c, posts, done, []) && IsPostOf(posts, |posts| - 1, |done|, a)
    ensures Ledger(c, posts, done, [a])
  {
    assert IsPostOf(posts, |posts| - 1, |done|, [a][0]);
  }

  /** All that a step leaves alone but the ledger, apart from what it needs to know of `t` itself. */
  predicate RestStays(c: Config, s: State, t: State) {
    EventsStay(s, t) && CardStays(s, t) && DecisionsStay(s, t) && t.done == s.done && t.posts == s.posts && Steady(c, t)
  }

  lemma SentMoves(c: Config, s: State, d: Decision)
    requires Steady(c, s) && s.pc == Sent(d) && s.row.Some?
    ensures RestStays(c, s, OnSent(s, d)) && OpenApprovals(s) == []
    ensures IsPostOf(s.posts, |s.posts| - 1, |s.done|, Approval(s.pending.value.card, d))
    ensures OpenApprovals(OnSent(s, d)) == [Approval(s.pending.value.card, d)]
  {
  }

  lemma SentLedger(c: Config, s: State, a: Approval)
    requires Posts(c, s) && OpenApprovals(s) == [] && IsPostOf(s.posts, |s.posts| - 1, |s.done|, a)
    ensures Ledger(c, s.posts, s.done, [a])
  {
    ApprovedLedger(c, s.posts, s.done, a);
  }

  lemma ApprovedIsSafe(c: Config, s: State, t: State, a: Approval)
    requires Safe(c, s) && RestStays(c, s, t) && OpenApprovals(t) == [a]
    requires Ledger(c, s.posts, s.done, [a])
    ensures Safe(c, t)
  {
    assert Posts(c, t);
    FaithStays(c, s, t);
    ProvenanceStays(s, t);
    RecordsStay(c, s, t);
  }

  lemma SentIsSafe(c: Config, s: State, d: Decision)
    requires Safe(c, s) && s.pc == Sent(d) && s.row.Some?
    ensures Safe(c, OnSent(s, d))
  {
    var a := Approval(s.pending.value.card, d);
    SentMoves(c, s, d);
    SentLedger(c, s, a);
    ApprovedIsSafe(c, s, OnSent(s, d), a);
  }

  lemma RunnerIsSafe(c: Config, s: State)
    requires Safe(c, s)
    ensures Safe(c, RunnerStep(s))
  {
    if s.row.Some? {
      match s.pc
      case Head => HeadIsSafe(c, s);
      case Read(d) => ReadIsSafe(c, s, d);
      case Ready(d) => ReadyIsSafe(c, s, d);
      case Sent(d) => SentIsSafe(c, s, d);
      case Submitted(d) => SubmittedIsSafe(c, s, d);
      case Archived(d) => ArchivedIsSafe(c, s, d);
      case CardOpen => CardOpenIsSafe(c, s);
      case _ =>
    }
  }

  // ----- frames

  /** What the runner makes of a frame it keeps. */
  function Judgement(c: Config, s: State, f: Frame, running: bool): Effect
    requires |s.done| < |c.phases|
  {
    Judge(c, c.phases[|s.done|], f, s.calls, Learned(c, s.known, f), running)
  }

  lemma CardFaithful(c: Config, phase: nat, data: Value, calls: map<Json, Json>, known: set<string>)
    requires phase < |c.phases| && c.phases[phase].name != CrewPhase
    ensures Faithful(c, phase, Held(MakeCard(c, c.phases[phase], data, calls, known), data, known))
  {
  }

  /** What is on offer is the card made of this frame. */
  ghost predicate IsOfferOf(c: Config, phase: Phase, f: Frame, calls: map<Json, Json>, known: set<string>, e: Effect) {
    && (e.Offer? ==> phase.name != CrewPhase && e.held == Held(MakeCard(c, phase, f.data, calls, known), f.data, known))
    && (e.RejectCrew? ==> phase.name == CrewPhase)
  }

  lemma PermissionOffers(c: Config, phase: Phase, f: Frame, calls: map<Json, Json>, known: set<string>)
    ensures IsOfferOf(c, phase, f, calls, known, JudgePermission(c, phase, f, calls, known))
  {
  }

  lemma JudgeOffers(c: Config, phase: Phase, f: Frame, calls: map<Json, Json>, known: set<string>, running: bool)
    ensures IsOfferOf(c, phase, f, calls, known, Judge(c, phase, f, calls, known, running))
  {
    if IsPermission(f) {
      PermissionOffers(c, phase, f, calls, known);
    }
  }

  /** A card on offer is the frame's, for a turn that may be approved; only the crew turn rejects on the spot. */
  lemma OfferFaithful(c: Config, phase: nat, f: Frame, calls: map<Json, Json>, known: set<string>, running: bool)
    requires phase < |c.phases|
    ensures
      var e := Judge(c, c.phases[phase], f, calls, known, running);
      && (e.Offer? ==> Faithful(c, phase, e.held))
      && (e.RejectCrew? ==> c.phases[phase].name == CrewPhase)
  {
    JudgeOffers(c, c.phases[phase], f, calls, known, running);
    if c.phases[phase].name != CrewPhase {
      CardFaithful(c, phase, f.data, calls, known);
    }
  }

  lemma KeepMoves(c: Config, s: State, f: Frame)
    requires Steady(c, s) && s.pc.Receiving? && s.row.Some?
    ensures
      var t := Keep(c, s, f);
      LedgerStays(s, t) && CardStays(s, t) && DecisionsStay(s, t) && Steady(c, t)
  {
  }

  lemma KeepRecords(c: Config, s: State, f: Frame)
    requires Recorded(c, s) && s.row.Some?
    ensures Recorded(c, Keep(c, s, f))
  {
    assert IsRecord(c, EventOf(c, Learned(c, s.known, f), f));
  }

  lemma KeepIsSafe(c: Config, s: State, f: Frame)
    requires Safe(c, s) && s.pc.Receiving? && s.row.Some?
    ensures Safe(c, Keep(c, s, f))
  {
    var t := Keep(c, s, f);
    KeepMoves(c, s, f);
    KeepRecords(c, s, f);
    FaithStays(c, s, t);
    PostsStay(c, s, t);
    ProvenanceStays(s, t);
  }

  predicate IsCalm(e: Effect) { !e.Offer? && !e.RejectCrew? }

  lemma RememberIsCalm(c: Config, s: State, callId: Json, shown: Json)
    requires Steady(c, s) && s.pc.Receiving? && s.row.Some?
    ensures Calm(c, s, React(s, Remember(callId, shown)))
  {
  }

  lemma EndTurnIsCalm(c: Config, s: State)
    requires Steady(c, s) && s.pc.Receiving? && s.row.Some? && s.pending.None?
    ensures Calm(c, s, s.(pc := Collecting))
  {
  }

  lemma ReactIsCalm(c: Config, s: State, e: Effect)
    requires Steady(c, s) && s.pc.Receiving? && s.row.Some? && IsCalm(e)
    ensures Calm(c, s, React(s, e))
  {
    match e
    case Nothing => PcIsCalm(c, s, Head);
    case Refuse => FailIsCalm(c, s);
    case Remember(callId, shown) => RememberIsCalm(c, s, callId, shown);
    case EndTurn => if s.pending.Some? { FailIsCalm(c, s); } else { EndTurnIsCalm(c, s); }
  }

  lemma CalmReactionIsSafe(c: Config, s: State, e: Effect)
    requires Safe(c, s) && s.pc.Receiving? && s.row.Some? && IsCalm(e)
    ensures Safe(c, React(s, e))
  {
    ReactIsCalm(c, s, e);
    CalmIsSafe(c, s, React(s, e));
  }

  lemma OfferMoves(c: Config, s: State, held: Held)
    requires Steady(c, s) && s.pc.Receiving? && s.row.Some?
    ensures
      var t := React(s, Offer(held));
      t == Fail(s)
      || (t.pc.CardOpen? && t.pending == Some(held)
          && LedgerStays(s, t) && EventsStay(s, t) && DecisionsStay(s, t) && Steady(c, t))
  {
  }

  lemma OfferTaken(c: Config, s: State, t: State, held: Held)
    requires Safe(c, s) && s.row.Some? && Faithful(c, |s.done|, held)
    requires t.pc.CardOpen? && t.pending == Some(held)
    requires LedgerStays(s, t) && EventsStay(s, t) && DecisionsStay(s, t) && Steady(c, t)
    ensures Safe(c, t)
  {
    PostsStay(c, s, t);
    ProvenanceStays(s, t);
    RecordsStay(c, s, t);
  }

  lemma OfferIsSafe(c: Config, s: State, held: Held)
    requires Safe(c, s) && s.pc.Receiving? && s.row.Some? && Faithful(c, |s.done|, held)
    ensures Safe(c, React(s, Offer(held)))
  {
    OfferMoves(c, s, held);
    if React(s, Offer(held)) == Fail(s) {
      FailIsSafe(c, s);
    } else {
      OfferTaken(c, s, React(s, Offer(held)), held);
    }
  }

  /** A turn that goes on after its POST is not the crew turn: that one ends with its only POST. */
  lemma CrewUnused(c: Config, s: State)
    requires Shape(c, s) && Posts(c, s) && s.row.Some? && s.pc.Receiving?
    ensures Used(s) ==> c.phases[|s.done|].name != CrewPhase
  {
    if Used(s) {
      var i :| IsPostOf(s.posts, i, |s.done|, OpenApprovals(s)[0]);
      assert PostSound(c, s.posts[i]);
    }
  }

  lemma RejectMoves(c: Config, s: State, requestId: string)
    requires Steady(c, s) && s.pc.Receiving? && s.row.Some? && c.phases[|s.done|].name == CrewPhase
    ensures
      var t := React(s, RejectCrew(requestId));
      && OnlyPosts(s, t) && t.posts == s.posts + [CrewPost(|s.done|, requestId)] && t.pc.Failed? && Steady(c, t)
      && PostSound(c, CrewPost(|s.done|, requestId))
  {
  }

  lemma CrewLedger(c: Config, s: State, p: Post)
    requires Shape(c, s) && Posts(c, s) && s.row.Some? && s.pc.Receiving? && c.phases[|s.done|].name == CrewPhase
    requires PostSound(c, p) && p.phase == |s.done|
    ensures Ledger(c, s.posts + [p], s.done, OpenApprovals(s))
  {
    CrewUnused(c, s);
    NotUsed(c, s);
    LedgerGrows(c, s.posts, s.done, OpenApprovals(s), p);
  }

  lemma RejectIsSafe(c: Config, s: State, requestId: string)
    requires Safe(c, s) && s.pc.Receiving? && s.row.Some? && c.phases[|s.done|].name == CrewPhase
    ensures Safe(c, React(s, RejectCrew(requestId)))
  {
    var p, t := CrewPost(|s.done|, requestId), React(s, RejectCrew(requestId));
    RejectMoves(c, s, requestId);
    CrewLedger(c, s, p);
    PostedIsSafe(c, s, t, p);
  }

  lemma ReactIsSafe(c: Config, s: State, e: Effect)
    requires Safe(c, s) && s.pc.Receiving? && s.row.Some?
    requires e.Offer? ==> Faithful(c, |s.done|, e.held)
    requires e.RejectCrew? ==> c.phases[|s.done|].name == CrewPhase
    ensures Safe(c, React(s, e))
  {
    match e
    case Offer(held) => OfferIsSafe(c, s, held);
    case RejectCrew(requestId) => RejectIsSafe(c, s, requestId);
    case _ => CalmReactionIsSafe(c, s, e);
  }

  lemma DeliveryCases(c: Config, s: State, f: Frame, running: bool)
    requires Shape(c, s) && s.pc.Receiving? && s.row.Some?
    ensures
      var t := Receive(c, s, f, running);
      t == s.(pc := Head) || t == React(Keep(c, s, f), Judgement(c, s, f, running))
  {
  }

  lemma DeliveryIsSafe(c: Config, s: State, f: Frame, running: bool)
    requires Safe(c, s)
    ensures Safe(c, Receive(c, s, f, running))
  {
    if s.pc.Receiving? && s.row.Some? {
      DeliveryCases(c, s, f, running);
      BackToHeadIsSafe(c, s);
      OfferFaithful(c, |s.done|, f, s.calls, Learned(c, s.known, f), running);
      KeepIsSafe(c, s, f);
      ReactIsSafe(c, Keep(c, s, f), Judgement(c, s, f, running));
    }
  }

  // ----- the end of a turn

  lemma RowIsBacked(posts: seq<Post>, done: seq<Row>, row: Row)
    requires AllBacked(posts, done) && Backed(posts, |done|, row.approvals) && AllApproved(row.approvals)
    ensures AllBacked(posts, done + [row])
  {
    var after := done + [row];
    forall k | 0 <= k < |after|
      ensures Backed(posts, k, after[k].approvals) && AllApproved(after[k].approvals)
    {
      assert after[k] == if k < |done| then done[k] else row;
    }
  }

  lemma EndKeepsLedger(c: Config, s: State, row: Row)
    requires Ledger(c, s.posts, s.done, row.approvals) && AllApproved(row.approvals)
    ensures Ledger(c, s.posts, s.done + [row], [])
  {
    RowIsBacked(s.posts, s.done, row);
  }

  lemma EndMoves(c: Config, s: State, sel: seq<Json>)
    requires Steady(c, s) && s.pc.Collecting? && s.row.Some?
    ensures
      var t := End(c, s, sel);
      && Shape(c, t) && Files(t) && (t.pc.Idle? || t.pc.Finished?) && t.row.None? && t.pending.None?
      && t.done == s.done + [s.row.value.(sel := sel)] && t.posts == s.posts && OpenApprovals(t) == []
      && DecisionsStay(s, t)
  {
  }

  lemma EndRecords(c: Config, s: State, t: State, row: Row)
    requires Recorded(c, s) && Named(c, s) && |s.done| < |c.phases| && row.phase == c.phases[|s.done|]
    requires AllRecords(c, row.events) && t.done == s.done + [row] && t.row.None?
    ensures Recorded(c, t) && Named(c, t)
  {
  }

  lemma EndUses(c: Config, s: State, t: State)
    requires Posts(c, s) && s.pc.Collecting? && t.posts == s.posts && |t.done| == |s.done| + 1
    requires (t.pc.Idle? || t.pc.Finished?) && OpenApprovals(t) == [] && t.pending.None?
    ensures Current(t)
  {
  }

  lemma EndIsSafe(c: Config, s: State, sel: seq<Json>)
    requires Safe(c, s)
    ensures Safe(c, End(c, s, sel))
  {
    if s.pc.Collecting? && s.row.Some? {
      var t := End(c, s, sel);
      EndMoves(c, s, sel);
      EndKeepsLedger(c, s, s.row.value.(sel := sel));
      EndUses(c, s, t);
      EndRecords(c, s, t, s.row.value.(sel := sel));
      ProvenanceStays(s, t);
    }
  }

  // ----- operator commands

  /** Recorded decisions stay recorded. */
  ghost predicate Extends(before: seq<Operator>, after: seq<Operator>) {
    |before| <= |after| && forall i :: 0 <= i < |before| && before[i].stage.Recorded? ==> after[i] == before[i]
  }

  lemma AuthoredStays(before: seq<Operator>, after: seq<Operator>, d: Decision)
    requires Extends(before, after) && Authored(before, d)
    ensures Authored(after, d)
  {
    var i :| 0 <= i < |before| && before[i].stage.Recorded? && DecisionOf(before[i]) == d;
    assert after[i] == before[i];
  }

  lemma OneMoves(s: State, i: nat)
    requires i < |s.operators|
    ensures |Advance(s, i).operators| == |s.operators|
    ensures Advance(s, i).operators == s.operators[i := Advance(s, i).operators[i]]
    ensures s.operators[i].stage.Recorded? ==> Advance(s, i).operators[i] == s.operators[i]
  {
  }

  lemma MovedIsReviewed(s: State, i: nat)
    requires i < |s.operators| &&
      (HasReviewed(s.operators[i]) ==> OperatorAccepts(s.operators[i], s.operators[i].stage.card))
    ensures
      |Advance(s, i).operators| == |s.operators|
      && var op := Advance(s, i).operators[i];
      HasReviewed(op) ==> OperatorAccepts(op, op.stage.card)
  {
    if s.operators[i].stage.Reading? {
      assert HasReviewed(Advance(s, i).operators[i]) ==>
        s.pendingFile.Full? && OperatorAccepts(s.operators[i], s.pendingFile.value);
    }
  }

  lemma AdvanceKeepsReviewed(s: State, i: nat)
    requires Reviewed(s.operators)
    ensures Reviewed(Advance(s, i).operators) && Extends(s.operators, Advance(s, i).operators)
  {
    if i < |s.operators| {
      OneMoves(s, i);
      MovedIsReviewed(s, i);
    }
  }

  /** A decision file is filled only by the command that made the decision. */
  lemma AdvanceAuthors(s: State, i: nat)
    requires s.decisionFile.Full? ==> Authored(s.operators, s.decisionFile.value)
    requires Extends(s.operators, Advance(s, i).operators)
    ensures Advance(s, i).decisionFile.Full? ==> Authored(Advance(s, i).operators, Advance(s, i).decisionFile.value)
  {
    var t := Advance(s, i);
    if t.decisionFile.Full? {
      if t.decisionFile == s.decisionFile {
        AuthoredStays(s.operators, t.operators, s.decisionFile.value);
      } else {
        assert t.operators[i].stage.Recorded? && DecisionOf(t.operators[i]) == t.decisionFile.value;
      }
    }
  }

  predicate OnlyOperators(s: State, t: State) {
    t == s.(operators := t.operators, decisionFile := t.decisionFile)
  }

  lemma OperatorsAreSafe(c: Config, s: State, t: State)
    requires Safe(c, s) && OnlyOperators(s, t)
    requires Reviewed(t.operators) && Extends(s.operators, t.operators)
    requires !t.strays && t.decisionFile.Full? ==> Authored(t.operators, t.decisionFile.value)
    ensures Safe(c, t)
  {
    forall d | Authored(s.operators, d)
      ensures Authored(t.operators, d)
    {
      AuthoredStays(s.operators, t.operators, d);
    }
    assert LedgerStays(s, t);
  }

  lemma AdvanceOnlyOperators(s: State, i: nat)
    ensures OnlyOperators(s, Advance(s, i))
  {
  }

  lemma AdvanceKeepsAuthors(s: State, i: nat)
    requires Provenance(s)
    ensures
      var t := Advance(s, i);
      && Reviewed(t.operators) && Extends(s.operators, t.operators)
      && (!t.strays && t.decisionFile.Full? ==> Authored(t.operators, t.decisionFile.value))
  {
    AdvanceKeepsReviewed(s, i);
    AdvanceOnlyOperators(s, i);
    if !s.strays {
      AdvanceAuthors(s, i);
    }
  }

  lemma AdvanceIsSafe(c: Config, s: State, i: nat)
    requires Safe(c, s)
    ensures Safe(c, Advance(s, i))
  {
    AdvanceKeepsAuthors(s, i);
    AdvanceOnlyOperators(s, i);
    OperatorsAreSafe(c, s, Advance(s, i));
  }

  lemma OperateIsSafe(c: Config, s: State, op: Operator)
    requires Safe(c, s) && op.stage.Reading?
    ensures Safe(c, s.(operators := s.operators + [op]))
  {
    var after := s.operators + [op];
    if !s.strays && s.decisionFile.Full? {
      AuthoredStays(s.operators, after, s.decisionFile.value);
    }
    OperatorsAreSafe(c, s, s.(operators := after));
  }

  // ----- every action, every run

  lemma StepIsSafe(c: Config, s: State, a: Action)
    requires Safe(c, s)
    ensures Safe(c, Apply(c, s, a))
  {
    match a
    case StartPhase => StartIsSafe(c, s);
    case Step => RunnerIsSafe(c, s);
    case Deliver(f, running) => DeliveryIsSafe(c, s, f, running);
    case Quiet =>
      if s.pc.Receiving? {
        BackToHeadIsSafe(c, s);
      }
    case Raise => FailIsSafe(c, s);
    case EndPhase(sel) => EndIsSafe(c, s, sel);
    case Operate(command, requestId, sha) => OperateIsSafe(c, s, Operator(command, requestId, sha, Reading));
    case OperatorStep(i) => AdvanceIsSafe(c, s, i);
    case StrayDecision(file) => OutsideIsSafe(c, s, s.(decisionFile := file, strays := true));
    case Tamper(file) => OutsideIsSafe(c, s, s.(pendingFile := file, tampered := true));
  }

  lemma {:induction false} ReplayIsSafe(c: Config, s: State, actions: seq<Action>)
    requires Safe(c, s)
    ensures Safe(c, Replay(c, s, actions))
    decreases |actions|
  {
    if actions != [] {
      StepIsSafe(c, s, actions[0]);
      ReplayIsSafe(c, Apply(c, s, actions[0]), actions[1..]);
    }
  }

  lemma EveryRunIsSafe(c: Config, actions: seq<Action>)
    ensures Safe(c, Run(c, actions))
  {
    ReplayIsSafe(c, INITIAL, actions);
  }
}
