/** Cutting a recorded session into turns, from captured frames and from persisted history. */
module Turns {
  import opened Wrappers

  /** What a frame is to the segmentation: a user message, the end of a turn, or anything else. */
  datatype Kind = UserMessage | ChatDone | OtherFrame

  datatype Event = Event(kind: Kind, time: int, content: string)

  datatype Turn = Turn(started: int, finished: Option<int>, prompt: string, events: seq<Event>, completed: bool)

  // ----- the reference: which events belong to a turn

  predicate NoDone(events: seq<Event>, from: nat, to: nat)
    requires from <= to <= |events|
  {
    forall k :: from <= k < to ==> !events[k].kind.ChatDone?
  }

  /** A turn is open at `i`: some user message at or before it, and no chat_done from there up to it. */
  predicate InTurn(events: seq<Event>, i: nat)
    requires i < |events|
  {
    exists j :: 0 <= j <= i && events[j].kind.UserMessage? && NoDone(events, j, i)
  }

  /** The events inside turns, in order. */
  function Inside(events: seq<Event>): seq<Event> {
    if events == [] then [] else
      var last := |events| - 1;
      Inside(events[..last]) + if InTurn(events, last) then [events[last]] else []
  }

  function Flatten(turns: seq<Turn>): seq<Event> {
    if turns == [] then [] else Flatten(turns[..|turns| - 1]) + turns[|turns| - 1].events
  }

  /** One turn: opened by its only user message, ended by its only chat_done exactly when completed. */
  predicate WellFormed(t: Turn) {
    && t.events != []
    && t.events[0].kind.UserMessage? && t.started == t.events[0].time && t.prompt == t.events[0].content
    && (forall k :: 0 < k < |t.events| ==> !t.events[k].kind.UserMessage?)
    && (forall k :: 0 <= k < |t.events| - 1 ==> !t.events[k].kind.ChatDone?)
    && (t.completed <==> t.events[|t.events| - 1].kind.ChatDone?)
    && t.finished == if t.completed then Some(t.events[|t.events| - 1].time) else None
  }

  predicate AllWellFormed(turns: seq<Turn>) {
    forall i :: 0 <= i < |turns| ==> WellFormed(turns[i])
  }

  /** A turn still open after all of `events`. */
  predicate StillOpen(events: seq<Event>) {
    exists j :: 0 <= j < |events| && events[j].kind.UserMessage? && NoDone(events, j, |events|)
  }

  lemma NoDoneIn(events: seq<Event>, e: Event, from: nat)
    requires from <= |events|
    ensures NoDone(events + [e], from, |events|) <==> NoDone(events, from, |events|)
    ensures NoDone(events + [e], from, |events| + 1) <==> NoDone(events, from, |events|) && !e.kind.ChatDone?
  {
    assert forall k :: 0 <= k < |events| ==> (events + [e])[k] == events[k];
    assert (events + [e])[|events|] == e;
  }

  lemma OpenBefore(events: seq<Event>, e: Event)
    ensures InTurn(events + [e], |events|) <==> StillOpen(events) || e.kind.UserMessage?
  {
    var longer, n := events + [e], |events|;
    forall j | 0 <= j < n
      ensures longer[j] == events[j] && (NoDone(longer, j, n) <==> NoDone(events, j, n))
    {
      NoDoneIn(events, e, j);
    }
    assert longer[n] == e && NoDone(longer, n, n);
  }

  lemma OpenAfter(events: seq<Event>, e: Event)
    ensures StillOpen(events + [e]) <==> (StillOpen(events) || e.kind.UserMessage?) && !e.kind.ChatDone?
  {
    var longer, n := events + [e], |events|;
    forall j | 0 <= j < n
      ensures longer[j] == events[j] && (NoDone(longer, j, n + 1) <==> NoDone(events, j, n) && !e.kind.ChatDone?)
    {
      NoDoneIn(events, e, j);
    }
    NoDoneIn(events, e, n);
    assert longer[n] == e;
  }

  lemma InsideNext(events: seq<Event>, e: Event)
    ensures Inside(events + [e]) == Inside(events) + if StillOpen(events) || e.kind.UserMessage? then [e] else []
  {
    OpenBefore(events, e);
    assert (events + [e])[..|events|] == events;
  }

  lemma FlattenOne(turns: seq<Turn>, t: Turn)
    ensures Flatten(turns + [t]) == Flatten(turns) + t.events
  {
    assert (turns + [t])[..|turns|] == turns;
  }

  function EventsOf(active: Option<Turn>): seq<Event> {
    if active.Some? then active.value.events else []
  }

  /** Closed turns and the open one hold what is inside so far. */
  predicate Segmented(events: seq<Event>, turns: seq<Turn>, active: Option<Turn>) {
    && AllWellFormed(turns)
    && (active.Some? ==> WellFormed(active.value) && !active.value.completed)
    && (active.Some? <==> StillOpen(events))
    && Flatten(turns) + EventsOf(active) == Inside(events)
  }

  /** `if active is not None: turns.append(active)`. */
  function Closed(turns: seq<Turn>, active: Option<Turn>): seq<Turn> {
    if active.Some? then turns + [active.value] else turns
  }

  lemma ClosedFlattens(turns: seq<Turn>, active: Option<Turn>)
    ensures Flatten(Closed(turns, active)) == Flatten(turns) + EventsOf(active)
  {
    if active.Some? {
      FlattenOne(turns, active.value);
    }
  }

  lemma UserOpensTurn(events: seq<Event>, turns: seq<Turn>, active: Option<Turn>, e: Event)
    requires Segmented(events, turns, active) && e.kind.UserMessage?
    ensures Segmented(events + [e], Closed(turns, active), Some(Turn(e.time, None, e.content, [e], false)))
  {
    assert WellFormed(Turn(e.time, None, e.content, [e], false));
    ClosedFlattens(turns, active);
    InsideNext(events, e);
    OpenAfter(events, e);
  }

  lemma GrownWellFormed(t: Turn, e: Event)
    requires WellFormed(t) && !t.completed && !e.kind.UserMessage?
    ensures e.kind.OtherFrame? ==> WellFormed(t.(events := t.events + [e]))
    ensures e.kind.ChatDone? ==> WellFormed(t.(events := t.events + [e], finished := Some(e.time), completed := true))
  {
    var grown := t.events + [e];
    assert grown[0] == t.events[0] && grown[|grown| - 1] == e;
    assert forall k :: 0 <= k < |t.events| ==> grown[k] == t.events[k];
  }

  lemma EventJoinsTurn(events: seq<Event>, turns: seq<Turn>, active: Turn, e: Event)
    requires Segmented(events, turns, Some(active)) && e.kind.OtherFrame?
    ensures Segmented(events + [e], turns, Some(active.(events := active.events + [e])))
  {
    InsideNext(events, e);
    OpenAfter(events, e);
    GrownWellFormed(active, e);
    assert Flatten(turns) + (active.events + [e]) == Flatten(turns) + active.events + [e];
  }

  lemma DoneClosesTurn(events: seq<Event>, turns: seq<Turn>, active: Turn, e: Event)
    requires Segmented(events, turns, Some(active)) && e.kind.ChatDone?
    ensures Segmented(events + [e],
                      turns + [active.(events := active.events + [e], finished := Some(e.time), completed := true)],
                      None)
  {
    var closed := active.(events := active.events + [e], finished := Some(e.time), completed := true);
    InsideNext(events, e);
    OpenAfter(events, e);
    GrownWellFormed(active, e);
    FlattenOne(turns, closed);
    assert Flatten(turns) + (active.events + [e]) == Flatten(turns) + active.events + [e];
  }

  lemma EventOutside(events: seq<Event>, turns: seq<Turn>, e: Event)
    requires Segmented(events, turns, None) && !e.kind.UserMessage?
    ensures Segmented(events + [e], turns, None)
  {
    InsideNext(events, e);
    OpenAfter(events, e);
  }

  method TurnsFrom(events: seq<Event>) returns (turns: seq<Turn>)
    ensures Flatten(turns) == Inside(events)
    ensures AllWellFormed(turns)
  {
    turns := [];
    var active: Option<Turn> := None;
    for i := 0 to |events|
      invariant Segmented(events[..i], turns, active)
    {
      var event := events[i];
      assert events[..i + 1] == events[..i] + [event];
      if event.kind.UserMessage? {
        UserOpensTurn(events[..i], turns, active, event);
        turns := Closed(turns, active);
        active := Some(Turn(event.time, None, event.content, [event], false));
      } else if active.Some? {
        var grown := active.value.(events := active.value.events + [event]);
        if event.kind.ChatDone? {
          DoneClosesTurn(events[..i], turns, active.value, event);
          turns := turns + [grown.(finished := Some(event.time), completed := true)];
          active := None;
        } else {
          EventJoinsTurn(events[..i], turns, active.value, event);
          active := Some(grown);
        }
      } else {
        EventOutside(events[..i], turns, event);
      }
    }
    assert events[..|events|] == events;
    ClosedFlattens(turns, active);
    turns := Closed(turns, active);
  }

  // ----- persisted history

  datatype Message = Message(fromUser: bool, time: int, content: string)

  datatype HistoryTurn = HistoryTurn(started: int, finished: int, prompt: string, messages: seq<Message>)

  /** What the slot says about its own completeness. */
  datatype Slot = Slot(running: bool, hasMore: bool, nextBefore: int, total: int, messages: seq<Message>)

  predicate CompleteAndIdle(slot: Slot) {
    !slot.running && !slot.hasMore && slot.nextBefore == 0 && slot.total >= |slot.messages|
  }

  function FlattenHistory(turns: seq<HistoryTurn>): seq<Message> {
    if turns == [] then [] else FlattenHistory(turns[..|turns| - 1]) + turns[|turns| - 1].messages
  }

  predicate IsFirstUser(messages: seq<Message>, r: nat) {
    && r <= |messages|
    && (forall i :: 0 <= i < r ==> !messages[i].fromUser)
    && (r < |messages| ==> messages[r].fromUser)
  }

  /** The position of the first user message, or the end. */
  function FirstUser(messages: seq<Message>): (r: nat)
    ensures IsFirstUser(messages, r)
  {
    if messages == [] || messages[0].fromUser then 0 else 1 + FirstUser(messages[1..])
  }

  predicate WellFormedHistory(t: HistoryTurn) {
    && t.messages != [] && t.messages[0].fromUser && t.started == t.messages[0].time &&
       t.prompt == t.messages[0].content
    && (forall k :: 0 < k < |t.messages| ==> !t.messages[k].fromUser)
    && t.finished == t.messages[|t.messages| - 1].time
  }

  function MessagesOf(active: Option<HistoryTurn>): seq<Message> {
    if active.Some? then active.value.messages else []
  }

  function ClosedHistory(turns: seq<HistoryTurn>, active: Option<HistoryTurn>): seq<HistoryTurn> {
    if active.Some? then turns + [active.value] else turns
  }

  /** What the first `i` messages leave once those before the first user message are dropped. */
  function Kept(messages: seq<Message>, first: nat, i: nat): seq<Message>
    requires i <= |messages|
  {
    if first <= i then messages[first..i] else []
  }

  lemma KeptNext(messages: seq<Message>, first: nat, i: nat)
    requires i < |messages| && IsFirstUser(messages, first)
    ensures Kept(messages, first, i + 1) == Kept(messages, first, i) + if first <= i then [messages[i]] else []
    ensures messages[i].fromUser ==> first <= i
  {
    if first <= i {
      assert messages[first..i + 1] == messages[first..i] + [messages[i]];
    }
  }

  predicate AllWellFormedHistory(turns: seq<HistoryTurn>) {
    forall j :: 0 <= j < |turns| ==> WellFormedHistory(turns[j])
  }

  /** After `i` messages: everything from the first user message on is in a turn. */
  predicate SegmentedHistory(messages: seq<Message>, first: nat, i: nat, turns: seq<HistoryTurn>,
                             active: Option<HistoryTurn>) {
    && i <= |messages| && IsFirstUser(messages, first)
    && AllWellFormedHistory(turns)
    && (active.Some? ==> WellFormedHistory(active.value))
    && (active.Some? <==> first < i)
    && FlattenHistory(turns) + MessagesOf(active) == Kept(messages, first, i)
  }

  lemma ClosedHistoryFlattens(turns: seq<HistoryTurn>, active: Option<HistoryTurn>)
    ensures FlattenHistory(ClosedHistory(turns, active)) == FlattenHistory(turns) + MessagesOf(active)
  {
    if active.Some? {
      assert (turns + [active.value])[..|turns|] == turns;
    }
  }

  lemma UserOpensHistoryTurn(messages: seq<Message>, first: nat, i: nat, turns: seq<HistoryTurn>,
                             active: Option<HistoryTurn>)
    requires i < |messages| && messages[i].fromUser && SegmentedHistory(messages, first, i, turns, active)
    ensures
      var m := messages[i];
      SegmentedHistory(messages, first, i + 1, ClosedHistory(turns, active),
                       Some(HistoryTurn(m.time, m.time, m.content, [m])))
  {
    ClosedHistoryFlattens(turns, active);
    KeptNext(messages, first, i);
  }

  lemma MessageJoinsTurn(messages: seq<Message>, first: nat, i: nat, turns: seq<HistoryTurn>, active: HistoryTurn)
    requires i < |messages| && !messages[i].fromUser && SegmentedHistory(messages, first, i, turns, Some(active))
    ensures SegmentedHistory(messages, first, i + 1, turns,
                             Some(active.(messages := active.messages + [messages[i]], finished := messages[i].time)))
  {
    KeptNext(messages, first, i);
    assert FlattenHistory(turns) + (active.messages + [messages[i]]) ==
      FlattenHistory(turns) + active.messages + [messages[i]];
  }

  lemma MessageBeforeAnyTurn(messages: seq<Message>, first: nat, i: nat, turns: seq<HistoryTurn>)
    requires i < |messages| && !messages[i].fromUser && SegmentedHistory(messages, first, i, turns, None)
    ensures SegmentedHistory(messages, first, i + 1, turns, None)
  {
    KeptNext(messages, first, i);
  }

  lemma HistoryEnds(messages: seq<Message>, first: nat, turns: seq<HistoryTurn>, active: Option<HistoryTurn>)
    requires SegmentedHistory(messages, first, |messages|, turns, active)
    ensures FlattenHistory(ClosedHistory(turns, active)) == messages[first..]
    ensures AllWellFormedHistory(ClosedHistory(turns, active))
  {
    ClosedHistoryFlattens(turns, active);
    assert messages[first..|messages|] == messages[first..];
  }

  /** The body of the loop. */
  method TakeMessage(messages: seq<Message>, ghost first: nat, i: nat, turns: seq<HistoryTurn>,
                     active: Option<HistoryTurn>)
    returns (nextTurns: seq<HistoryTurn>, nextActive: Option<HistoryTurn>)
    requires i < |messages| && SegmentedHistory(messages, first, i, turns, active)
    ensures SegmentedHistory(messages, first, i + 1, nextTurns, nextActive)
  {
    var message := messages[i];
    if message.fromUser {
      UserOpensHistoryTurn(messages, first, i, turns, active);
      return ClosedHistory(turns, active), Some(HistoryTurn(message.time, message.time, message.content, [message]));
    } else if active.Some? {
      MessageJoinsTurn(messages, first, i, turns, active.value);
      return turns, Some(active.value.(messages := active.value.messages + [message], finished := message.time));
    }
    MessageBeforeAnyTurn(messages, first, i, turns);
    return turns, None;
  }

  method TurnsFromHistory(slot: Slot) returns (r: Option<seq<HistoryTurn>>)
    ensures r.Some? <==> CompleteAndIdle(slot)
    ensures r.Some? ==> FlattenHistory(r.value) == slot.messages[FirstUser(slot.messages)..]
    ensures r.Some? ==> AllWellFormedHistory(r.value)
  {
    if !CompleteAndIdle(slot) {
      return None;
    }
    var messages := slot.messages;
    var turns: seq<HistoryTurn>, active: Option<HistoryTurn> := [], None;
    ghost var first := FirstUser(messages);
    for i := 0 to |messages|
      invariant SegmentedHistory(messages, first, i, turns, active)
    {
      turns, active := TakeMessage(messages, first, i, turns, active);
    }
    HistoryEnds(messages, first, turns, active);
    return Some(ClosedHistory(turns, active));
  }
}
