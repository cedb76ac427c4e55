/**
Which identifiers cleaning leaves alone when a frame is kept: those of the requests for permission kept
by then, in this turn or an earlier one, and no others.
*/
module ApprovalIdentifiers {
  import opened Wrappers
  import opened JsonValues
  import opened NativeRecords
  import opened ApprovalProtocol
  import opened ApprovalSafety

  /** The frame asks for permission under this identifier. */
  predicate Names(c: Config, e: Event, x: string) {
    && e.kind == ChatMessage && Field(e.raw, "role") == Str("permission")
    && x == c.codec.str(FieldOr(PermissionMeta(c.codec, e.raw), "request_id", Str(""))) && 0 < |x| <= 150
  }

  ghost predicate NamedIn(c: Config, events: seq<Event>, x: string) {
    exists i :: 0 <= i < |events| && Names(c, events[i], x)
  }

  ghost predicate NamedBefore(c: Config, rows: seq<Row>, x: string) {
    exists k :: 0 <= k < |rows| && NamedIn(c, rows[k].events, x)
  }

  /** Exactly these are known: what earlier turns and this one so far have named. */
  ghost predicate KnownAre(c: Config, known: set<string>, rows: seq<Row>, events: seq<Event>) {
    forall x :: x in known <==> NamedBefore(c, rows, x) || NamedIn(c, events, x)
  }

  /** Each frame was kept with what was known by then, its own identifier included. */
  ghost predicate EventsKnow(c: Config, rows: seq<Row>, events: seq<Event>) {
    forall i :: 0 <= i < |events| ==> KnownAre(c, events[i].known, rows, events[..i + 1])
  }

  function OpenEvents(s: State): seq<Event> { if s.row.Some? then s.row.value.events else [] }

  ghost predicate KnownSound(c: Config, s: State) {
    && KnownAre(c, s.known, s.done, OpenEvents(s)) && EventsKnow(c, s.done, OpenEvents(s))
    && forall k :: 0 <= k < |s.done| ==> EventsKnow(c, s.done[..k], s.done[k].events)
  }

  predicate KnownStays(s: State, t: State) {
    t.known == s.known && t.done == s.done && OpenEvents(t) == OpenEvents(s)
  }

  lemma StayingKnows(c: Config, s: State, t: State)
    requires KnownSound(c, s) && KnownStays(s, t)
    ensures KnownSound(c, t)
  {
  }

  lemma NamedInMore(c: Config, events: seq<Event>, e: Event, x: string)
    ensures NamedIn(c, events + [e], x) <==> NamedIn(c, events, x) || Names(c, e, x)
  {
    var more := events + [e];
    assert more[|events|] == e && forall i :: 0 <= i < |events| ==> more[i] == events[i];
    if NamedIn(c, events, x) {
      var i :| 0 <= i < |events| && Names(c, events[i], x);
      assert Names(c, more[i], x);
    }
    if Names(c, e, x) {
      assert Names(c, more[|events|], x);
    }
  }

  lemma LearnedNames(c: Config, known: set<string>, f: Frame, e: Event, x: string)
    requires e.kind == f.kind && e.raw == f.data
    ensures x in Learned(c, known, f) <==> x in known || Names(c, e, x)
  {
  }

  lemma EventsKnowMore(c: Config, rows: seq<Row>, events: seq<Event>, e: Event)
    requires EventsKnow(c, rows, events) && KnownAre(c, e.known, rows, events + [e])
    ensures EventsKnow(c, rows, events + [e])
  {
    var more := events + [e];
    forall i | 0 <= i < |more|
      ensures KnownAre(c, more[i].known, rows, more[..i + 1])
    {
      if i < |events| {
        assert more[..i + 1] == events[..i + 1];
      } else {
        assert more[..i + 1] == more;
      }
    }
  }

  lemma KeepKnows(c: Config, s: State, f: Frame)
    requires KnownSound(c, s) && s.row.Some?
    ensures KnownSound(c, Keep(c, s, f))
  {
    var known := Learned(c, s.known, f);
    var events, e := s.row.value.events, EventOf(c, known, f);
    forall x
      ensures x in known <==> NamedBefore(c, s.done, x) || NamedIn(c, events + [e], x)
    {
      LearnedNames(c, s.known, f, e, x);
      NamedInMore(c, events, e, x);
    }
    assert KnownAre(c, known, s.done, events + [e]);
    EventsKnowMore(c, s.done, events, e);
  }

  lemma ReactKnows(s: State, e: Effect)
    ensures KnownStays(s, React(s, e))
  {
  }

  lemma ReceiveKnows(c: Config, s: State, f: Frame, running: bool)
    requires KnownSound(c, s)
    ensures KnownSound(c, Receive(c, s, f, running))
  {
    var t := Receive(c, s, f, running);
    if KnownStays(s, t) {
      StayingKnows(c, s, t);
    } else {
      KeepKnows(c, s, f);
      ReactKnows(Keep(c, s, f), Judgement(c, s, f, running));
      StayingKnows(c, Keep(c, s, f), t);
    }
  }

  lemma NamedBeforeMore(c: Config, rows: seq<Row>, row: Row, x: string)
    ensures NamedBefore(c, rows + [row], x) <==> NamedBefore(c, rows, x) || NamedIn(c, row.events, x)
  {
    var more := rows + [row];
    assert more[|rows|] == row && forall k :: 0 <= k < |rows| ==> more[k] == rows[k];
    if NamedBefore(c, rows, x) {
      var k :| 0 <= k < |rows| && NamedIn(c, rows[k].events, x);
      assert NamedIn(c, more[k].events, x);
    }
    if NamedIn(c, row.events, x) {
      assert NamedIn(c, more[|rows|].events, x);
    }
  }

  lemma EndKnows(c: Config, s: State, sel: seq<Json>)
    requires KnownSound(c, s)
    ensures KnownSound(c, End(c, s, sel))
  {
    var t := End(c, s, sel);
    if t != s {
      var row := s.row.value.(sel := sel);
      forall x
        ensures x in t.known <==> NamedBefore(c, t.done, x) || NamedIn(c, [], x)
      {
        NamedBeforeMore(c, s.done, row, x);
      }
      forall k | 0 <= k < |t.done|
        ensures EventsKnow(c, t.done[..k], t.done[k].events)
      {
        assert t.done[..k] == s.done[..k];
        assert k < |s.done| ==> t.done[k] == s.done[k];
        assert s.done[..|s.done|] == s.done;
      }
    }
  }

  lemma StartKnows(c: Config, s: State)
    requires Shape(c, s)
    ensures KnownStays(s, Start(c, s))
  {
  }

  lemma RunnerKnows(s: State)
    ensures KnownStays(s, RunnerStep(s))
  {
  }

  lemma AdvanceKnows(s: State, i: nat)
    ensures KnownStays(s, Advance(s, i))
  {
  }

  /** Actions that neither deliver a frame nor file a turn. */
  lemma OthersKnow(c: Config, s: State, a: Action)
    requires Shape(c, s) && !a.Deliver? && !a.EndPhase?
    ensures KnownStays(s, Apply(c, s, a))
  {
    match a
    case StartPhase => StartKnows(c, s);
    case Step => RunnerKnows(s);
    case OperatorStep(i) => AdvanceKnows(s, i);
    case _ =>
  }

  lemma StepKnows(c: Config, s: State, a: Action)
    requires Shape(c, s) && KnownSound(c, s)
    ensures KnownSound(c, Apply(c, s, a))
  {
    if a.Deliver? {
      ReceiveKnows(c, s, a.frame, a.running);
    } else if a.EndPhase? {
      EndKnows(c, s, a.sel);
    } else {
      OthersKnow(c, s, a);
      StayingKnows(c, s, Apply(c, s, a));
    }
  }

  lemma {:induction false} ReplayKnows(c: Config, s: State, actions: seq<Action>)
    requires Safe(c, s) && KnownSound(c, s)
    ensures KnownSound(c, Replay(c, s, actions))
    decreases |actions|
  {
    if actions != [] {
      StepIsSafe(c, s, actions[0]);
      StepKnows(c, s, actions[0]);
      ReplayKnows(c, Apply(c, s, actions[0]), actions[1..]);
    }
  }

  /** In every run the identifiers left alone are those of the requests for permission kept so far. */
  lemma EveryRunKnows(c: Config, actions: seq<Action>)
    ensures KnownSound(c, Run(c, actions))
  {
    EveryRunIsSafe(c, []);
    ReplayKnows(c, INITIAL, actions);
  }
}
