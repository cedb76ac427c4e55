/**
Recovering "everything since the checkpoint" from an append-only security log that can only be read
as its newest 1000 records, newest first: the anchored interval of the passive collector, and the
identifier difference of the evidence runner.
*/
module SelInterval {
  import opened Wrappers
  import opened JsonValues

  const PAGE_LIMIT := 1000

  /** SHA-256 of a record's canonical JSON, taken to be injective. */
  datatype RecordDigest = Sha256(record: Json)

  datatype Checkpoint = Checkpoint(count: nat, anchorId: Option<string>, anchorSha: Option<RecordDigest>)

  datatype Failure = InvalidOrDuplicateIds | MayBeTruncated | AnchorNotRetained | AnchorChanged

  function Id(e: Json): Json { Field(e, "event_id") }

  predicate IsId(v: Json) { v.Str? && v.s != "" }

  /** Every record has a nonempty identifier and no two share one. */
  predicate ValidIds(events: seq<Json>) {
    && (forall i :: 0 <= i < |events| ==> IsId(Id(events[i])))
    && (forall i, j :: 0 <= i < j < |events| ==> Id(events[i]) != Id(events[j]))
  }

  function SelCheckpoint(events: seq<Json>): Result<Checkpoint, Failure> {
    if !ValidIds(events) then Err(InvalidOrDuplicateIds)
    else if events == [] then Ok(Checkpoint(0, None, None))
    else Ok(Checkpoint(|events|, Some(Id(events[0]).s), Some(Sha256(events[0]))))
  }

  /** The record's identifier is this text, and it is not empty. */
  predicate IsNamed(e: Json, text: string) { text != "" && Field(e, "event_id") == Str(text) }

  ghost predicate HasName(e: Json) { exists text :: IsNamed(e, text) }

  lemma IdIsNamed(e: Json)
    ensures IsId(Id(e)) <==> HasName(e)
  {
    if IsId(Id(e)) {
      assert IsNamed(e, Id(e).s);
    }
  }

  /** Every record has an identifier, and no two have the same one. */
  lemma ValidIdsIff(events: seq<Json>)
    ensures ValidIds(events) <==>
      && (forall i :: 0 <= i < |events| ==> HasName(events[i]))
      && forall i, j, text :: 0 <= i < j < |events| && IsNamed(events[i], text) ==> !IsNamed(events[j], text)
  {
    forall i | 0 <= i < |events|
      ensures IsId(Id(events[i])) <==> HasName(events[i])
    {
      IdIsNamed(events[i]);
    }
    if i, j :| 0 <= i < j < |events| && Id(events[i]) == Id(events[j]) {
      if text :| IsNamed(events[i], text) {
        assert IsNamed(events[j], text);
      }
    } else {
      forall i, j, text | 0 <= i < j < |events| && IsNamed(events[i], text)
        ensures !IsNamed(events[j], text)
      {
        assert Id(events[i]) != Id(events[j]);
      }
    }
  }

  /** A checkpoint is the number of records and the newest one's identifier and digest. */
  lemma CheckpointIs(events: seq<Json>, checkpoint: Checkpoint)
    requires ValidIds(events)
    ensures SelCheckpoint(events) == Ok(checkpoint) <==>
      && checkpoint.count == |events| && (events == [] ==> checkpoint.anchorId == None && checkpoint.anchorSha == None)
      && (events != [] ==> checkpoint.anchorSha == Some(Sha256(events[0])) && checkpoint.anchorId.Some?
                           && Field(events[0], "event_id") == Str(checkpoint.anchorId.value))
  {
  }

  /** The positions of the anchor, counted from `from`. */
  function Matches(events: seq<Json>, anchor: string, from: nat): seq<nat> {
    if events == [] then []
    else (if Id(events[0]) == Str(anchor) then [from] else []) + Matches(events[1..], anchor, from + 1)
  }

  function SelInterval(checkpoint: Checkpoint, events: seq<Json>): Result<seq<Json>, Failure> {
    var valid := SelCheckpoint(events);
    if valid.Err? then Err(valid.error)
    else if checkpoint.anchorId.None? then
      if |events| < PAGE_LIMIT then Ok(events) else Err(MayBeTruncated)
    else
      var matches := Matches(events, checkpoint.anchorId.value, 0);
      if |matches| != 1 || matches[0] >= |events| then Err(AnchorNotRetained)
      else if Some(Sha256(events[matches[0]])) != checkpoint.anchorSha then Err(AnchorChanged)
      else Ok(events[..matches[0]])
  }

  lemma {:induction false} MatchesMiss(events: seq<Json>, anchor: string, from: nat)
    requires forall i :: 0 <= i < |events| ==> Id(events[i]) != Str(anchor)
    ensures Matches(events, anchor, from) == []
  {
    if events != [] {
      MatchesMiss(events[1..], anchor, from + 1);
    }
  }

  /** Among distinct identifiers the anchor is found once, where it is. */
  lemma {:induction false} MatchesHit(events: seq<Json>, anchor: string, from: nat, k: nat)
    requires k < |events| && Id(events[k]) == Str(anchor)
    requires forall i, j :: 0 <= i < j < |events| ==> Id(events[i]) != Id(events[j])
    ensures Matches(events, anchor, from) == [from + k]
  {
    var rest := events[1..];
    if k == 0 {
      MatchesMiss(rest, anchor, from + 1);
    } else {
      MatchesHit(rest, anchor, from + 1, k - 1);
    }
  }

  /**
  On any page whatever, an anchored interval is accepted exactly when the page is well formed and
  holds the very record that was newest at the checkpoint; what comes before it is returned.
  */
  lemma AnchoredIntervalIsSound(baseline: seq<Json>, page: seq<Json>, k: nat)
    requires ValidIds(baseline) && baseline != []
    ensures
      var checkpoint := SelCheckpoint(baseline).value;
      (k < |page| && SelInterval(checkpoint, page) == Ok(page[..k]))
      <==> (ValidIds(page) && k < |page| && page[k] == baseline[0])
  {
    var checkpoint := SelCheckpoint(baseline).value;
    var anchor := checkpoint.anchorId.value;
    if ValidIds(page) {
      if j: nat :| j < |page| && Id(page[j]) == Str(anchor) {
        MatchesHit(page, anchor, 0, j);
        if k < |page| && j != k {
          assert |page[..j]| != |page[..k]|;
          assert page[k] != baseline[0];
        }
      } else {
        MatchesMiss(page, anchor, 0);
        assert forall j: nat :: j < |page| ==> page[j] != baseline[0];
      }
    }
  }

  // ----- the log behind the page

  /** A log of records, oldest first, read newest first. */
  function Newest(log: seq<Json>, n: nat): (r: seq<Json>)
    requires n <= |log|
    ensures |r| == n
    ensures forall i :: 0 <= i < n ==> r[i] == log[|log| - 1 - i]
  {
    seq(n, (i: int) requires 0 <= i < n => log[|log| - 1 - i])
  }

  function Page(log: seq<Json>): seq<Json> {
    Newest(log, if |log| < PAGE_LIMIT then |log| else PAGE_LIMIT)
  }

  lemma PageIsValid(log: seq<Json>)
    requires ValidIds(log)
    ensures ValidIds(Page(log))
  {
  }

  lemma AnchorPushedOff(log: seq<Json>, appended: seq<Json>)
    requires ValidIds(log + appended) && log != [] && |appended| >= PAGE_LIMIT
    ensures forall i :: 0 <= i < |Page(log + appended)| ==> Id(Page(log + appended)[i]) != Id(Page(log)[0])
  {
    var whole := log + appended;
    forall i | 0 <= i < |Page(whole)|
      ensures Id(Page(whole)[i]) != Id(Page(log)[0])
    {
      assert Page(whole)[i] == whole[|whole| - 1 - i] && Page(log)[0] == whole[|log| - 1];
    }
  }

  /**
  Over an append-only log the collector succeeds exactly when fewer than 1000 records were appended,
  and then returns exactly those, newest first.
  */
  lemma IntervalIsExact(log: seq<Json>, appended: seq<Json>)
    requires ValidIds(log + appended)
    ensures
      var checkpoint := SelCheckpoint(Page(log));
      && checkpoint.Ok?
      && var r := SelInterval(checkpoint.value, Page(log + appended));
      && (r.Ok? <==> |appended| < 1000)
      && (r.Ok? ==> r.value == Newest(appended, |appended|))
  {
    var whole := log + appended;
    assert ValidIds(log) by {
      assert forall i :: 0 <= i < |log| ==> log[i] == whole[i];
    }
    PageIsValid(log);
    PageIsValid(whole);
    if log == [] {
      assert whole == appended;
    } else if |appended| < PAGE_LIMIT {
      AnchoredIntervalIsSound(Page(log), Page(whole), |appended|);
    } else {
      AnchorPushedOff(log, appended);
      MatchesMiss(Page(whole), Id(Page(log)[0]).s, 0);
    }
  }

  // ----- the evidence runner's way

  /** `Runner.sel`: a full page is refused. */
  function RunnerSel(log: seq<Json>): Result<seq<Json>, Failure> {
    var page := Page(log);
    if |page| < PAGE_LIMIT then Ok(page) else Err(MayBeTruncated)
  }

  function ByCaller(events: seq<Json>, caller: string): seq<Json> {
    if events == [] then []
    else
      (if Field(events[0], "caller_identity") == Str(caller) then [events[0]] else [])
      + ByCaller(events[1..], caller)
  }

  /** Records of one caller whose identifier was not on the baseline page. */
  function NewRows(baseline: seq<Json>, events: seq<Json>, caller: string): seq<Json> {
    if events == [] then []
    else
      var unseen := forall i :: 0 <= i < |baseline| ==> Id(baseline[i]) != Id(events[0]);
      (if unseen && Field(events[0], "caller_identity") == Str(caller) then [events[0]] else [])
      + NewRows(baseline, events[1..], caller)
  }

  lemma {:induction false} NewRowsOfOld(baseline: seq<Json>, events: seq<Json>, caller: string)
    requires forall j :: 0 <= j < |events| ==> events[j] in baseline
    ensures NewRows(baseline, events, caller) == []
  {
    if events != [] {
      assert events[0] in baseline;
      NewRowsOfOld(baseline, events[1..], caller);
    }
  }

  lemma {:induction false} NewRowsOfFresh(baseline: seq<Json>, recent: seq<Json>, known: seq<Json>, caller: string)
    requires forall i, j :: 0 <= i < |baseline| && 0 <= j < |recent| ==> Id(baseline[i]) != Id(recent[j])
    requires forall j :: 0 <= j < |known| ==> known[j] in baseline
    ensures NewRows(baseline, recent + known, caller) == ByCaller(recent, caller)
  {
    if recent == [] {
      assert recent + known == known;
      NewRowsOfOld(baseline, known, caller);
    } else {
      assert (recent + known)[1..] == recent[1..] + known;
      NewRowsOfFresh(baseline, recent[1..], known, caller);
    }
  }

  /** Whenever the runner's way succeeds the anchored way does too, and both select the same records. */
  lemma BothWaysAgree(log: seq<Json>, appended: seq<Json>, caller: string)
    requires ValidIds(log + appended)
    requires RunnerSel(log).Ok? && RunnerSel(log + appended).Ok?
    ensures
      var checkpoint := SelCheckpoint(Page(log));
      && checkpoint.Ok?
      && var interval := SelInterval(checkpoint.value, Page(log + appended));
      && interval.Ok?
      && NewRows(RunnerSel(log).value, RunnerSel(log + appended).value, caller) == ByCaller(interval.value, caller)
  {
    IntervalIsExact(log, appended);
    var whole := log + appended;
    var baseline, recent, page := Page(log), Newest(appended, |appended|), Page(whole);
    assert page == recent + baseline;
    forall i, j | 0 <= i < |baseline| && 0 <= j < |recent|
      ensures Id(baseline[i]) != Id(recent[j])
    {
      assert baseline[i] == whole[|log| - 1 - i] && recent[j] == whole[|whole| - 1 - j];
    }
    NewRowsOfFresh(baseline, recent, baseline, caller);
  }

  /** The runner gives up earlier: on the size of the whole log, not of what was appended. */
  lemma RunnerSucceedsIff(log: seq<Json>, appended: seq<Json>)
    ensures (RunnerSel(log).Ok? && RunnerSel(log + appended).Ok?) <==> |log| + |appended| < 1000
  {
  }
}
