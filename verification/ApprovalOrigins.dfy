/** Where what the runner keeps, shows and POSTs comes from: frames of its own slot, in the very turn. */
module ApprovalOrigins {
  import opened Wrappers
  import opened JsonValues
  import opened NativeRecords
  import opened ApprovalProtocol
  import opened ApprovalSafety

  // ----- what the frames of a turn say

  /** The frame as it arrived names the runner's slot and is of a kind it listens to. */
  predicate OfSlot(c: Config, e: Event) { Field(e.raw, "slot") == Str(c.slot) && !e.kind.OtherKind? }

  predicate AllOfSlot(c: Config, events: seq<Event>) {
    forall i :: 0 <= i < |events| ==> OfSlot(c, events[i])
  }

  /** The frame that opens a turn echoes its message or has its trace somewhere in its text. */
  predicate Opens(c: Config, phase: Phase, e: Event) {
    || (e.kind == ChatMessage && Field(e.raw, "role") == Str("user") && Field(e.raw, "content") == Str(phase.message))
    || Includes(c.codec.dump(e.raw), phase.trace)
  }

  predicate Opened(c: Config, phase: Phase, events: seq<Event>) {
    events != [] ==> Opens(c, phase, events[0])
  }

  /** A tool call that a card may refer to. */
  predicate RemembersCall(e: Event, callId: Json) {
    e.kind == ToolCall && Field(e.raw, "tool_call_id") == callId && Truthy(callId) && Hashable(callId)
  }

  predicate IsLatestCall(events: seq<Event>, i: nat, callId: Json) {
    && i < |events| && RemembersCall(events[i], callId)
    && forall j :: i < j < |events| ==> !RemembersCall(events[j], callId)
  }

  /** What is shown of this call is its latest frame, as kept, or nothing when there is none. */
  ghost predicate Recalls(events: seq<Event>, callId: Json, shown: Json) {
    || (shown == Null && forall i :: 0 <= i < |events| ==> !RemembersCall(events[i], callId))
    || (exists i: nat :: IsLatestCall(events, i, callId) && shown == events[i].data)
  }

  function Recalled(calls: map<Json, Json>, callId: Json): Json { if callId in calls then calls[callId] else Null }

  ghost predicate CallsKept(events: seq<Event>, calls: map<Json, Json>) {
    forall callId :: Recalls(events, callId, Recalled(calls, callId))
  }

  /** The frame asks for permission, unresolved, under this request identifier. */
  predicate Asks(c: Config, e: Event, requestId: string) {
    var meta := PermissionMeta(c.codec, e.raw);
    && e.kind == ChatMessage && Field(e.raw, "role") == Str("permission")
    && !Truthy(Field(meta, "resolved")) && Field(meta, "request_id") != Null
    && requestId == c.codec.str(Field(meta, "request_id")) && |requestId| <= 150
  }

  /** The card shows frame `m` of the turn, the turn's tool, and the call that the frame refers to. */
  ghost predicate ShowsFrame(c: Config, phase: Phase, events: seq<Event>, m: nat, h: Held) {
    && m < |events| && Asks(c, events[m], h.card.body.requestId)
    && events[m].raw == h.raw && events[m].known == h.known && events[m].data == h.card.body.nativeCard
    && h.card.body.slot == c.slot && h.card.body.phase == phase.name
    && h.card.body.expectedTool == phase.tool && h.card.body.expectedTrace == phase.trace
    && Recalls(events[..m], Field(PermissionMeta(c.codec, h.raw), "tool_call_id"), h.card.body.relatedCall)
  }

  ghost predicate ShownIn(c: Config, phase: Phase, events: seq<Event>, h: Held) {
    exists m: nat :: ShowsFrame(c, phase, events, m, h)
  }

  /** The frames kept of a phase so far. */
  function EventsOf(s: State, k: nat): seq<Event> {
    if k < |s.done| then s.done[k].events
    else if k == |s.done| && s.row.Some? then s.row.value.events
    else []
  }

  ghost predicate PostFrom(c: Config, s: State, p: Post) {
    && p.phase < |c.phases|
    && (exists m: nat :: m < |EventsOf(s, p.phase)| && Asks(c, EventsOf(s, p.phase)[m], p.requestId))
    && (p.held.Some? ==> ShownIn(c, c.phases[p.phase], EventsOf(s, p.phase), p.held.value))
  }

  // ----- what every run keeps

  ghost predicate TurnSound(c: Config, s: State) {
    s.row.Some? ==>
      && AllOfSlot(c, s.row.value.events) && Opened(c, s.row.value.phase, s.row.value.events)
      && (s.started <==> s.row.value.events != [])
      && CallsKept(s.row.value.events, s.calls)
      && (s.pending.Some? ==> ShownIn(c, s.row.value.phase, s.row.value.events, s.pending.value))
  }

  predicate RowsSound(c: Config, done: seq<Row>) {
    forall k :: 0 <= k < |done| ==> AllOfSlot(c, done[k].events) && Opened(c, done[k].phase, done[k].events)
  }

  ghost predicate PostsFrom(c: Config, s: State) {
    forall i :: 0 <= i < |s.posts| ==> PostFrom(c, s, s.posts[i])
  }

  ghost predicate Origins(c: Config, s: State) {
    TurnSound(c, s) && RowsSound(c, s.done) && PostsFrom(c, s)
  }

  // ----- steps that keep no frame

  /** The turn's frames and calls stay; the card in memory stays or goes; nothing is POSTed or filed. */
  predicate TurnStays(s: State, t: State) {
    && t.done == s.done && t.posts == s.posts && t.calls == s.calls && t.started == s.started
    && (t.row.Some? <==> s.row.Some?)
    && (t.row.Some? ==> t.row.value.events == s.row.value.events && t.row.value.phase == s.row.value.phase)
    && (t.pending.None? || t.pending == s.pending)
  }

  lemma StayingKeeps(c: Config, s: State, t: State)
    requires Origins(c, s) && TurnStays(s, t)
    ensures Origins(c, t)
  {
    assert forall k: nat :: EventsOf(t, k) == EventsOf(s, k);
    forall i | 0 <= i < |t.posts|
      ensures PostFrom(c, t, t.posts[i])
    {
      assert PostFrom(c, s, s.posts[i]);
    }
  }

  lemma RunnerStays(s: State)
    requires !s.pc.Ready?
    ensures TurnStays(s, RunnerStep(s))
  {
  }

  /** A POST under a decision names the request that the card's frame made. */
  lemma PostKeeps(c: Config, s: State, p: Post)
    requires Origins(c, s) && s.row.Some? && |s.done| < |c.phases| && s.row.value.phase == c.phases[|s.done|]
    requires p.phase == |s.done| && PostFrom(c, s, p)
    ensures PostsFrom(c, s.(posts := s.posts + [p]))
  {
    var t := s.(posts := s.posts + [p]);
    forall i | 0 <= i < |t.posts|
      ensures PostFrom(c, t, t.posts[i])
    {
      assert t.posts[i] == if i < |s.posts| then s.posts[i] else p;
      assert PostFrom(c, s, t.posts[i]);
      assert EventsOf(t, t.posts[i].phase) == EventsOf(s, t.posts[i].phase);
    }
  }

  lemma ReadyNamesCard(c: Config, s: State, d: Decision)
    requires Shape(c, s) && Faith(c, s) && s.pc == Ready(d) && s.row.Some?
    ensures s.pending.Some? && d.requestId == s.pending.value.card.body.requestId
    ensures |s.done| < |c.phases| && s.row.value.phase == c.phases[|s.done|]
  {
  }

  lemma CardExplainsPost(c: Config, s: State, p: Post)
    requires s.row.Some? && |s.done| < |c.phases| && s.row.value.phase == c.phases[|s.done|] && p.phase == |s.done|
    requires p.held.Some? && ShownIn(c, c.phases[p.phase], s.row.value.events, p.held.value)
    requires p.requestId == p.held.value.card.body.requestId
    ensures PostFrom(c, s, p)
  {
    var m: nat :| ShowsFrame(c, s.row.value.phase, s.row.value.events, m, p.held.value);
    assert Asks(c, EventsOf(s, p.phase)[m], p.requestId);
  }

  lemma PostsAfterPc(c: Config, s: State, p: Post, pc: Pc)
    requires Origins(c, s) && PostsFrom(c, s.(posts := s.posts + [p]))
    ensures Origins(c, s.(pc := pc, posts := s.posts + [p]))
  {
    var t, u := s.(posts := s.posts + [p]), s.(pc := pc, posts := s.posts + [p]);
    assert forall k: nat :: EventsOf(u, k) == EventsOf(t, k);
    forall i | 0 <= i < |u.posts|
      ensures PostFrom(c, u, u.posts[i])
    {
      assert PostFrom(c, t, t.posts[i]);
    }
  }

  lemma ReadyKeeps(c: Config, s: State, d: Decision)
    requires Shape(c, s) && Faith(c, s) && Origins(c, s) && s.pc == Ready(d) && s.row.Some?
    ensures Origins(c, OnReady(s, d))
  {
    var p := Post(PhaseOf(s), d.requestId, d.verb, s.pending, Some(d), s.compared);
    ReadyNamesCard(c, s, d);
    CardExplainsPost(c, s, p);
    PostKeeps(c, s, p);
    StayingKeeps(c, s, s.(pc := Sent(d)));
    assert OnReady(s, d) == s.(pc := Sent(d), posts := s.posts + [p]);
    PostsAfterPc(c, s, p, Sent(d));
  }

  lemma StartKeeps(c: Config, s: State)
    requires Safe(c, s) && Origins(c, s)
    ensures Origins(c, Start(c, s))
  {
    var t := Start(c, s);
    if t != s {
      assert forall k: nat :: EventsOf(t, k) == EventsOf(s, k);
      forall i | 0 <= i < |t.posts|
        ensures PostFrom(c, t, t.posts[i])
      {
        assert PostFrom(c, s, s.posts[i]);
      }
    }
  }

  /** The open turn is filed, and nothing is open afterwards. */
  predicate Filed(s: State, t: State, row: Row) {
    && s.row.Some? && t.row.None? && t.done == s.done + [row] && t.posts == s.posts
    && row.events == s.row.value.events && row.phase == s.row.value.phase
  }

  lemma FiledEvents(s: State, t: State, row: Row, k: nat)
    requires Filed(s, t, row) && k <= |s.done|
    ensures EventsOf(t, k) == EventsOf(s, k)
  {
  }

  lemma FilingKeeps(c: Config, s: State, t: State, row: Row)
    requires Origins(c, s) && Filed(s, t, row) && forall i :: 0 <= i < |s.posts| ==> s.posts[i].phase <= |s.done|
    ensures Origins(c, t)
  {
    forall i | 0 <= i < |t.posts|
      ensures PostFrom(c, t, t.posts[i])
    {
      assert PostFrom(c, s, s.posts[i]);
      FiledEvents(s, t, row, s.posts[i].phase);
    }
  }

  lemma EndKeeps(c: Config, s: State, sel: seq<Json>)
    requires Safe(c, s) && Origins(c, s)
    ensures Origins(c, End(c, s, sel))
  {
    if End(c, s, sel) != s {
      FilingKeeps(c, s, End(c, s, sel), s.row.value.(sel := sel));
    }
  }

  // ----- a frame is kept

  lemma ShownStays(c: Config, phase: Phase, events: seq<Event>, e: Event, h: Held)
    requires ShownIn(c, phase, events, h)
    ensures ShownIn(c, phase, events + [e], h)
  {
    var m: nat :| ShowsFrame(c, phase, events, m, h);
    assert (events + [e])[..m] == events[..m];
    assert ShowsFrame(c, phase, events + [e], m, h);
  }

  /** One more frame in the open row; the rest of what origins speak of stays. */
  predicate OneMore(s: State, t: State, e: Event) {
    && s.row.Some? && t.row.Some? && t.done == s.done && t.posts == s.posts
    && t.row.value.phase == s.row.value.phase && t.row.value.events == s.row.value.events + [e]
  }

  lemma PostsOneMore(c: Config, s: State, t: State, e: Event)
    requires PostsFrom(c, s) && OneMore(s, t, e)
    ensures PostsFrom(c, t)
  {
    forall i | 0 <= i < |t.posts|
      ensures PostFrom(c, t, t.posts[i])
    {
      var p := s.posts[i];
      assert PostFrom(c, s, p);
      if p.phase == |s.done| {
        var m: nat :| m < |EventsOf(s, p.phase)| && Asks(c, EventsOf(s, p.phase)[m], p.requestId);
        assert EventsOf(t, p.phase)[m] == EventsOf(s, p.phase)[m];
        if p.held.Some? {
          ShownStays(c, c.phases[p.phase], EventsOf(s, p.phase), e, p.held.value);
        }
      } else {
        assert EventsOf(t, p.phase) == EventsOf(s, p.phase);
      }
    }
  }

  /** A frame that is no call to remember leaves what is recalled. */
  lemma RecallsOn(events: seq<Event>, e: Event, callId: Json, shown: Json)
    requires Recalls(events, callId, shown) && !RemembersCall(e, callId)
    ensures Recalls(events + [e], callId, shown)
  {
    if i: nat :| IsLatestCall(events, i, callId) && shown == events[i].data {
      assert IsLatestCall(events + [e], i, callId);
    }
  }

  lemma RecallsNew(events: seq<Event>, e: Event, callId: Json)
    requires RemembersCall(e, callId)
    ensures Recalls(events + [e], callId, e.data)
  {
    assert IsLatestCall(events + [e], |events|, callId);
  }

  /** The calls after one more frame: a tool call with a usable identifier is remembered as kept. */
  function CallsAfter(calls: map<Json, Json>, e: Event): map<Json, Json> {
    var callId := Field(e.raw, "tool_call_id");
    if e.kind == ToolCall && Truthy(callId) && Hashable(callId) then calls[callId := e.data] else calls
  }

  lemma CallsKeptOn(events: seq<Event>, calls: map<Json, Json>, e: Event)
    requires CallsKept(events, calls)
    ensures CallsKept(events + [e], CallsAfter(calls, e))
  {
    forall callId
      ensures Recalls(events + [e], callId, Recalled(CallsAfter(calls, e), callId))
    {
      if RemembersCall(e, callId) {
        RecallsNew(events, e, callId);
      } else {
        RecallsOn(events, e, callId, Recalled(calls, callId));
      }
    }
  }

  // ----- what a frame does

  /** The event that a delivered frame becomes. */
  function EventAt(c: Config, s: State, f: Frame): Event { EventOf(c, Learned(c, s.known, f), f) }

  /** The runner keeps a frame of its own slot in a turn that has begun, or that the frame begins. */
  predicate Keeps(c: Config, s: State, f: Frame) {
    Ours(c, f) && (s.started || (|s.done| < |c.phases| && Starts(c, c.phases[|s.done|], f)))
  }

  lemma KeptIsOfSlot(c: Config, s: State, f: Frame)
    requires Shape(c, s) && s.row.Some? && Keeps(c, s, f)
    ensures OfSlot(c, EventAt(c, s, f)) && (!s.started ==> Opens(c, s.row.value.phase, EventAt(c, s, f)))
  {
  }

  /** Keeping a frame and remembering its call. */
  function KeptState(c: Config, s: State, f: Frame): State
    requires s.row.Some?
  {
    Keep(c, s, f).(calls := CallsAfter(s.calls, EventAt(c, s, f)))
  }

  lemma KeptSound(c: Config, s: State, f: Frame)
    requires Origins(c, s) && Shape(c, s) && s.row.Some? && Keeps(c, s, f)
    ensures Origins(c, KeptState(c, s, f))
  {
    var t, e := KeptState(c, s, f), EventAt(c, s, f);
    var events := s.row.value.events;
    KeptIsOfSlot(c, s, f);
    assert OneMore(s, t, e);
    PostsOneMore(c, s, t, e);
    CallsKeptOn(events, s.calls, e);
    if s.pending.Some? {
      ShownStays(c, s.row.value.phase, events, e, s.pending.value);
    }
    assert forall i :: 0 <= i < |events| ==> (events + [e])[i] == events[i];
  }

  /** The reaction to a frame, apart from a new card or a crew POST, leaves the kept state's turn as it is. */
  lemma CalmReactionStays(c: Config, s: State, f: Frame, running: bool)
    requires s.pc.Receiving? && s.row.Some? && |s.done| < |c.phases| && IsCalm(Judgement(c, s, f, running))
    ensures TurnStays(KeptState(c, s, f), React(Keep(c, s, f), Judgement(c, s, f, running)))
  {
  }

  /** A card on offer shows the frame that was just kept. */
  lemma OfferShowsFrame(c: Config, s: State, f: Frame, running: bool)
    requires Shape(c, s) && s.row.Some? && CallsKept(s.row.value.events, s.calls)
    requires Judgement(c, s, f, running).Offer?
    ensures ShownIn(c, s.row.value.phase, KeptState(c, s, f).row.value.events, Judgement(c, s, f, running).held)
    ensures KeptState(c, s, f).calls == s.calls
  {
    var events, e, h := s.row.value.events, EventAt(c, s, f), Judgement(c, s, f, running).held;
    var callId := Field(PermissionMeta(c.codec, h.raw), "tool_call_id");
    assert (events + [e])[..|events|] == events;
    assert h.card.body.relatedCall == Recalled(s.calls, callId);
    assert ShowsFrame(c, s.row.value.phase, events + [e], |events|, h);
  }

  lemma RejectAnswersFrame(c: Config, s: State, f: Frame, running: bool)
    requires Shape(c, s) && s.row.Some? && Judgement(c, s, f, running).RejectCrew?
    ensures PostFrom(c, KeptState(c, s, f), CrewPost(|s.done|, Judgement(c, s, f, running).requestId))
    ensures KeptState(c, s, f).calls == s.calls
  {
    var e, t := EventAt(c, s, f), KeptState(c, s, f);
    assert Asks(c, e, Judgement(c, s, f, running).requestId);
    assert EventsOf(t, |s.done|)[|s.row.value.events|] == e;
  }

  lemma NewCardKeeps(c: Config, s: State, t: State, h: Held)
    requires Origins(c, s) && s.row.Some? && ShownIn(c, s.row.value.phase, s.row.value.events, h)
    requires t.pending == Some(h) && TurnStays(s, t.(pending := None))
    ensures Origins(c, t)
  {
    StayingKeeps(c, s, t.(pending := None));
    var u := t.(pending := None);
    assert forall k: nat :: EventsOf(t, k) == EventsOf(u, k);
    forall i | 0 <= i < |t.posts|
      ensures PostFrom(c, t, t.posts[i])
    {
      assert PostFrom(c, u, u.posts[i]);
    }
  }

  lemma OfferReacts(c: Config, s: State, f: Frame, h: Held)
    requires s.row.Some? && KeptState(c, s, f).calls == s.calls
    ensures
      var kept, t := KeptState(c, s, f), React(Keep(c, s, f), Offer(h));
      if t.pc.CardOpen? then t.pending == Some(h) && TurnStays(kept, t.(pending := None))
      else TurnStays(kept, t)
  {
  }

  lemma OfferKeeps(c: Config, s: State, f: Frame, running: bool)
    requires Shape(c, s) && s.row.Some? && CallsKept(s.row.value.events, s.calls)
    requires s.pc.Receiving? && Origins(c, KeptState(c, s, f)) && Judgement(c, s, f, running).Offer?
    ensures Origins(c, React(Keep(c, s, f), Judgement(c, s, f, running)))
  {
    var kept, h := KeptState(c, s, f), Judgement(c, s, f, running).held;
    var t := React(Keep(c, s, f), Offer(h));
    OfferShowsFrame(c, s, f, running);
    OfferReacts(c, s, f, h);
    if t.pc.CardOpen? {
      NewCardKeeps(c, kept, t, h);
    } else {
      StayingKeeps(c, kept, t);
    }
  }

  lemma RejectKeeps(c: Config, s: State, f: Frame, running: bool)
    requires Shape(c, s) && s.row.Some?
    requires Origins(c, KeptState(c, s, f)) && Judgement(c, s, f, running).RejectCrew?
    ensures Origins(c, React(Keep(c, s, f), Judgement(c, s, f, running)))
  {
    var kept, p := KeptState(c, s, f), CrewPost(|s.done|, Judgement(c, s, f, running).requestId);
    RejectAnswersFrame(c, s, f, running);
    PostKeeps(c, kept, p);
    PostsAfterPc(c, kept, p, Failed);
  }

  lemma ReactionKeeps(c: Config, s: State, f: Frame, running: bool)
    requires Shape(c, s) && Origins(c, s) && s.pc.Receiving? && s.row.Some? && Keeps(c, s, f)
    ensures Origins(c, React(Keep(c, s, f), Judgement(c, s, f, running)))
  {
    KeptSound(c, s, f);
    var e := Judgement(c, s, f, running);
    if e.Offer? {
      OfferKeeps(c, s, f, running);
    } else if e.RejectCrew? {
      RejectKeeps(c, s, f, running);
    } else {
      CalmReactionStays(c, s, f, running);
      StayingKeeps(c, KeptState(c, s, f), React(Keep(c, s, f), e));
    }
  }

  lemma DeliveryKeeps(c: Config, s: State, f: Frame, running: bool)
    requires Safe(c, s) && Origins(c, s)
    ensures Origins(c, Receive(c, s, f, running))
  {
    if s.pc.Receiving? && s.row.Some? {
      if Keeps(c, s, f) {
        ReactionKeeps(c, s, f, running);
      } else {
        StayingKeeps(c, s, s.(pc := Head));
      }
    }
  }

  lemma RunnerKeeps(c: Config, s: State)
    requires Shape(c, s) && Faith(c, s) && Origins(c, s)
    ensures Origins(c, RunnerStep(s))
  {
    if s.pc.Ready? && s.row.Some? {
      ReadyKeeps(c, s, s.pc.decision);
    } else {
      RunnerStays(s);
      StayingKeeps(c, s, RunnerStep(s));
    }
  }

  /** Actions that neither open, feed nor file a turn. */
  lemma AsideStays(c: Config, s: State, a: Action)
    requires !a.StartPhase? && !a.Step? && !a.Deliver? && !a.EndPhase?
    ensures TurnStays(s, Apply(c, s, a))
  {
  }

  lemma StepKeepsOrigins(c: Config, s: State, a: Action)
    requires Safe(c, s) && Origins(c, s)
    ensures Origins(c, Apply(c, s, a))
  {
    if a.StartPhase? {
      StartKeeps(c, s);
    } else if a.Step? {
      RunnerKeeps(c, s);
    } else if a.Deliver? {
      DeliveryKeeps(c, s, a.frame, a.running);
    } else if a.EndPhase? {
      EndKeeps(c, s, a.sel);
    } else {
      AsideStays(c, s, a);
      StayingKeeps(c, s, Apply(c, s, a));
    }
  }

  lemma {:induction false} ReplayKeepsOrigins(c: Config, s: State, actions: seq<Action>)
    requires Safe(c, s) && Origins(c, s)
    ensures Origins(c, Replay(c, s, actions))
    decreases |actions|
  {
    if actions != [] {
      StepIsSafe(c, s, actions[0]);
      StepKeepsOrigins(c, s, actions[0]);
      ReplayKeepsOrigins(c, Apply(c, s, actions[0]), actions[1..]);
    }
  }

  /**
  In every run each kept frame is of the runner's slot, a turn's first one opens it, each card in
  memory shows a permission frame of its turn beside the latest tool call that the frame refers to,
  and each POST answers such a frame of its phase.
  */
  lemma EveryRunHasOrigins(c: Config, actions: seq<Action>)
    ensures Origins(c, Run(c, actions))
  {
    EveryRunIsSafe(c, []);
    ReplayKeepsOrigins(c, INITIAL, actions);
  }

  /** A frame of another slot does nothing but end the wait for it. */
  lemma OtherSlotIsIgnored(c: Config, s: State, f: Frame, running: bool)
    requires Safe(c, s) && s.pc.Receiving? && Field(f.data, "slot") != Str(c.slot)
    ensures Apply(c, s, Deliver(f, running)) == s.(pc := Head)
  {
  }

  lemma ReactionLeavesRow(s: State, e: Effect)
    ensures React(s, e).row == s.row
  {
  }

  lemma DeliveredRow(c: Config, s: State, f: Frame, running: bool)
    requires s.pc.Receiving? && s.row.Some? && |s.done| < |c.phases|
    ensures Receive(c, s, f, running).row == if Keeps(c, s, f) then Keep(c, s, f).row else s.row
  {
    if Keeps(c, s, f) {
      ReactionLeavesRow(Keep(c, s, f), Judgement(c, s, f, running));
    }
  }

  /** A frame of the runner's slot is kept exactly when the turn has begun or the frame opens it. */
  lemma OwnFrameIsKeptIff(c: Config, s: State, f: Frame, running: bool)
    requires Shape(c, s) && s.pc.Receiving?
    requires f.data.Obj? && Field(f.data, "slot") == Str(c.slot) && !f.kind.OtherKind?
    ensures
      var t, e := Apply(c, s, Deliver(f, running)), EventAt(c, s, f);
      && s.row.Some? && t.row.Some? && e.kind == f.kind && e.raw == f.data && e.data == c.clean(e.known, f.data)
      && t.row.value.events ==
        if s.started || Opens(c, s.row.value.phase, e) then s.row.value.events + [e] else s.row.value.events
  {
    DeliveredRow(c, s, f, running);
  }

  /** The frame is kept as this event. */
  predicate IsKept(c: Config, s: State, f: Frame) {
    && s.pc.Receiving? && s.row.Some? && f.data.Obj? && Field(f.data, "slot") == Str(c.slot) && !f.kind.OtherKind?
    && (s.started || Opens(c, s.row.value.phase, EventAt(c, s, f)))
  }

  /** A card may be shown: the turn is not the crew's and has had none, and no file is in the way. */
  predicate MayShow(s: State) {
    && s.row.Some? && s.row.value.phase.name != CrewPhase && s.pending.None? && s.row.value.approvals == []
    && s.pendingFile == Absent
  }

  /** The frame speaks of the end of the turn, and the slot confirms it. */
  predicate Ends(f: Frame, running: bool) { f.kind == ChatDone && !running }

  /** The frame that names a tool call under something that cannot be a key. */
  predicate NamesBadCall(f: Frame) {
    f.kind == ToolCall && Truthy(Field(f.data, "tool_call_id")) && !Hashable(Field(f.data, "tool_call_id"))
  }

  predicate AsksUnderBadCall(c: Config, f: Frame) {
    !Hashable(Field(PermissionMeta(c.codec, f.data), "tool_call_id"))
  }

  /** An unresolved request for permission whose identifier is missing or too long. */
  predicate AsksBadly(c: Config, f: Frame) {
    var meta := PermissionMeta(c.codec, f.data);
    && f.kind == ChatMessage && Field(f.data, "role") == Str("permission") && !Truthy(Field(meta, "resolved"))
    && (Field(meta, "request_id") == Null || |c.codec.str(Field(meta, "request_id"))| > 150)
  }

  function RequestOf(c: Config, f: Frame): string {
    c.codec.str(Field(PermissionMeta(c.codec, f.data), "request_id"))
  }

  lemma AskedIff(c: Config, phase: Phase, f: Frame, calls: map<Json, Json>, known: set<string>)
    ensures
      var e := JudgePermission(c, phase, f, calls, known);
      var asks := Asks(c, Event(ChatMessage, f.data, f.data, known), RequestOf(c, f));
      IsPermission(f) ==>
        && (e.RejectCrew? <==> asks && phase.name == CrewPhase)
        && (e.RejectCrew? ==> e.requestId == RequestOf(c, f))
        && (e.Offer? <==> asks && phase.name != CrewPhase && !AsksUnderBadCall(c, f))
        && (e.Refuse? <==> AsksBadly(c, f) || (asks && phase.name != CrewPhase && AsksUnderBadCall(c, f)))
        && !e.Remember? && !e.EndTurn?
  {
  }

  /** What a frame asks of the runner, by its own fields. */
  lemma JudgementIs(c: Config, s: State, f: Frame, running: bool)
    requires |s.done| < |c.phases|
    ensures
      var e, phase := Judgement(c, s, f, running), c.phases[|s.done|];
      var asks := Asks(c, EventAt(c, s, f), RequestOf(c, f));
      && (e.RejectCrew? <==> asks && phase.name == CrewPhase) && (e.RejectCrew? ==> e.requestId == RequestOf(c, f))
      && (e.Offer? <==> asks && phase.name != CrewPhase && !AsksUnderBadCall(c, f))
      && (e.EndTurn? <==> Ends(f, running))
      && (e.Refuse? <==>
          NamesBadCall(f) || AsksBadly(c, f) || (asks && phase.name != CrewPhase && AsksUnderBadCall(c, f)))
  {
    if IsPermission(f) {
      AskedIff(c, c.phases[|s.done|], f, s.calls, Learned(c, s.known, f));
    }
  }

  lemma ReactionIs(s: State, e: Effect)
    requires s.row.Some? && s.pc.Receiving?
    ensures
      var t := React(s, e);
      var free := s.pending.None? && s.row.value.approvals == [] && s.pendingFile == Absent;
      && (t.pc.CardOpen? <==> e.Offer? && free)
      && (t.pc.CardOpen? ==> t.pending.Some? && t.pendingFile == Created(RUNNER))
      && t.posts == (if e.RejectCrew? then s.posts + [CrewPost(PhaseOf(s), e.requestId)] else s.posts)
      && (t.pc.Collecting? <==> e.EndTurn? && s.pending.None?)
      && (t.pc.Failed? <==> e.Refuse? || e.RejectCrew? || (e.EndTurn? && s.pending.Some?) || (e.Offer? && !free))
      && (t.pc.CardOpen? || t.pc.Collecting? || t.pc.Failed? || t.pc.Head?)
  {
  }

  /** Keeping a frame leaves what the reaction looks at. */
  lemma KeepLeaves(c: Config, s: State, f: Frame)
    requires s.row.Some?
    ensures
      var kept := Keep(c, s, f);
      && kept.row.Some? && kept.pc == s.pc && kept.pending == s.pending && kept.pendingFile == s.pendingFile
      && kept.row.value.approvals == s.row.value.approvals && kept.posts == s.posts && kept.done == s.done
  {
  }

  lemma KeptIsReceived(c: Config, s: State, f: Frame, running: bool)
    requires Shape(c, s) && IsKept(c, s, f)
    ensures Apply(c, s, Deliver(f, running)) == React(Keep(c, s, f), Judgement(c, s, f, running))
  {
  }

  /** What the runner does next is decided by the frame and by what the turn has had so far. */
  lemma DeliveryIs(c: Config, s: State, f: Frame, running: bool)
    requires Shape(c, s) && IsKept(c, s, f)
    ensures
      var t, crew := Apply(c, s, Deliver(f, running)), s.row.value.phase.name == CrewPhase;
      var asks := Asks(c, EventAt(c, s, f), RequestOf(c, f));
      && (t.pc.CardOpen? <==> asks && MayShow(s) && !AsksUnderBadCall(c, f))
      && (t.pc.CardOpen? ==> t.pending.Some? && t.pendingFile == Created(RUNNER))
      && t.posts == (if asks && crew then s.posts + [Post(|s.done|, RequestOf(c, f), Rejected, None, None, Absent)]
                     else s.posts)
      && (t.pc.Collecting? <==> Ends(f, running) && s.pending.None?)
      && (t.pc.Failed? <==>
          || NamesBadCall(f) || AsksBadly(c, f) || (Ends(f, running) && s.pending.Some?)
          || (asks && (crew || !MayShow(s) || AsksUnderBadCall(c, f))))
      && (t.pc.CardOpen? || t.pc.Collecting? || t.pc.Failed? || t.pc.Head?)
  {
    KeptIsReceived(c, s, f, running);
    JudgementIs(c, s, f, running);
    KeepLeaves(c, s, f);
    ReactionIs(Keep(c, s, f), Judgement(c, s, f, running));
  }

  /** A decision file is never written over: an operator creates it where there is none and fills only its own. */
  lemma DecisionFileIsExclusive(c: Config, s: State, i: nat)
    ensures
      var t := Apply(c, s, OperatorStep(i));
      || t.decisionFile == s.decisionFile
      || (s.decisionFile == Absent && t.decisionFile == Created(i + 1))
      || (s.decisionFile == Created(i + 1) && t.decisionFile.Full?)
  {
  }

  // ----- what becomes of a decision

  /** The decision names this card by request and digest, was reviewed, and approves only what was shown exactly. */
  predicate Decides(d: Decision, card: Card) {
    && d.requestId == card.body.requestId && d.sha == card.sha && d.reviewed
    && (d.verb == Rejected || (d.verb == Approved && card.body.argumentsMatch && !card.body.redacted))
  }

  /** The runner goes on to wait for a frame until there is a decision; a half-written one fails the run. */
  lemma HeadIs(s: State)
    requires s.pc.Head? && s.row.Some?
    ensures RunnerStep(s) ==
      if s.pending.None? || s.decisionFile == Absent then s.(pc := Receiving)
      else match s.decisionFile case Full(d) => s.(pc := Read(d)) case _ => s.(pc := Failed)
  {
  }

  /** A decision is taken up exactly when it fits the card in memory and that card is still the one on disk. */
  lemma DecisionIsTakenIff(s: State, h: Held, d: Decision)
    requires s.pc == Head && s.row.Some? && s.pending == Some(h) && s.decisionFile == Full(d)
    ensures
      var t := RunnerStep(RunnerStep(s));
      && (t.pc.Ready? <==> s.pendingFile == Full(h.card) && Decides(d, h.card))
      && (t.pc.Ready? || t == s.(pc := Failed)) && t.posts == s.posts
  {
    HeadIs(s);
  }

  /** A decision that is taken up is POSTed once and recorded beside its card. */
  lemma DecisionIsSent(s: State, h: Held, d: Decision, row: Row)
    requires s.pc == Ready(d) && s.row == Some(row) && s.pending == Some(h)
    ensures
      RunnerStep(RunnerStep(s)) ==
        s.(pc := Submitted(d),
           posts := s.posts + [Post(|s.done|, d.requestId, d.verb, Some(h), Some(d), s.compared)],
           row := Some(row.(approvals := row.approvals + [Approval(h.card, d)])))
  {
  }

  /** Then both files go, and the turn goes on only after an approval. When a file is missing by then the run fails. */
  lemma DecisionIsArchived(s: State, h: Held, d: Decision)
    requires s.pc == Submitted(d) && s.row.Some? && s.pending == Some(h)
    ensures
      var t := RunnerStep(RunnerStep(s));
      t == if s.decisionFile == Absent then s.(pc := Failed)
           else if s.pendingFile == Absent then s.(pc := Failed, decisionFile := Absent)
           else s.(pc := if d.verb == Approved then Receiving else Failed, decisionFile := Absent,
                   pendingFile := Absent, pending := None)
  {
  }

  /** A card that was opened is written into the runner's own file and into no other. */
  lemma CardIsWritten(s: State, h: Held)
    requires s.pc.CardOpen? && s.row.Some? && s.pending == Some(h)
    ensures RunnerStep(s) ==
      s.(pc := Head, pendingFile := if s.pendingFile == Created(RUNNER) then Full(h.card) else s.pendingFile)
  {
  }

  // ----- the operator's command and the world outside

  /** What a command must be given of a card to go on with it. */
  predicate Admits(op: Operator, card: Card) {
    && op.requestId == card.body.requestId && op.sha == card.sha == Sha256(card.body) && card.body.phase != CrewPhase
    && (op.command == Reject || (card.body.argumentsMatch && !card.body.redacted))
  }

  /** A command goes on exactly with the card it was given, if that may be decided so; then it needs a free place. */
  lemma CommandIs(s: State, i: nat)
    requires i < |s.operators|
    ensures
      var op, next := s.operators[i], Advance(s, i).operators[i].stage;
      match op.stage
      case Reading =>
        next == (if s.pendingFile.Full? && Admits(op, s.pendingFile.value) then Checked(s.pendingFile.value)
                 else Refused) && Advance(s, i).decisionFile == s.decisionFile
      case Checked(card) =>
        if s.decisionFile == Absent then next == Writing(card) && Advance(s, i).decisionFile == Created(i + 1)
        else next == Refused && Advance(s, i).decisionFile == s.decisionFile
      case Writing(card) =>
        next == Recorded(card) && (s.decisionFile == Created(i + 1) ==>
          Advance(s, i).decisionFile ==
            Full(Decision(op.requestId, op.sha, if op.command == Approve then Approved else Rejected, true)))
      case _ => Advance(s, i) == s
  {
  }

  /** Silence ends the wait for a frame and nothing else; an exception fails a run that is not over. */
  lemma OutsideIs(c: Config, s: State)
    ensures s.pc.Receiving? ==> Apply(c, s, Quiet) == s.(pc := Head)
    ensures !s.pc.Receiving? ==> Apply(c, s, Quiet) == s
    ensures Apply(c, s, Raise) == if s.pc.Finished? then s else s.(pc := Failed)
  {
  }
}
