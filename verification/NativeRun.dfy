/** The protocol and its evaluation together: what a run whose evidence passes has shown. */
module NativeRun {
  import opened JsonValues
  import opened NativeRecords
  import opened ApprovalProtocol
  import opened ApprovalSafety
  import opened ApprovalTheorems
  import opened Sanitizer
  import opened NativeSettings
  import opened Evidence
  import opened RawCalls

  /**
  For a phase that needs approval: one operator reviewed one card, that card was POSTed as approved
  with exactly the turn's trace, and the call it names is the only call of the turn, answered by the
  single service invocation that the journal has for the trace.
  */
  ghost predicate EndToEnd(n: Settings, s: State, r: Reader, receipt: Receipt, k: nat, sha: string,
                           i: nat, o: nat, callId: Json, invocation: Json) {
    && k < |s.done| && i < |s.posts| && o < |s.operators|
    && s.posts[i].phase == k && s.posts[i].verb == Approved && ApprovedExactly(n, s.posts[i])
    && ReviewedCard(s.operators[o], s.posts[i])
    && Field(PermissionMeta(r.codec, s.posts[i].held.value.card.body.nativeCard), "tool_call_id") == callId
    && var row := s.done[k];
    ApprovedChain(r, row, TraceEvents(receipt.journal, row.phase.trace), receipt.before, sha, callId, invocation)
  }

  /** The POST behind a completed, approved phase, and the operator behind the POST. */
  lemma ApprovalIsReviewed(n: Settings, actions: seq<Action>, k: nat) returns (i: nat, o: nat)
    requires !Run(Native(n), actions).strays
    requires k < |Run(Native(n), actions).done| && Run(Native(n), actions).done[k].approvals != []
    ensures
      var s := Run(Native(n), actions);
      && i < |s.posts| && o < |s.operators| && IsPostOf(s.posts, i, k, s.done[k].approvals[0])
      && s.posts[i].verb == Approved && ApprovedExactly(n, s.posts[i]) && ReviewedCard(s.operators[o], s.posts[i])
  {
    var s := Run(Native(n), actions);
    CompletedPhases(n, actions, k);
    i :| IsPostOf(s.posts, i, k, s.done[k].approvals[0]) && s.posts[i].verb == Approved &&
      ApprovedExactly(n, s.posts[i]);
    DecisionsWereReviewed(Native(n), actions, i);
    o :| o < |s.operators| && ReviewedCard(s.operators[o], s.posts[i]);
  }

  lemma EvidencedApproval(n: Settings, actions: seq<Action>, r: Reader, receipt: Receipt, k: nat, sha: string)
    requires
      var s := Run(Native(n), actions);
      && !s.strays && receipt.rows == s.done
      && k < |s.done| && s.done[k].phase.name != CrewPhase
      && RowPasses(r, receipt, k, sha)
    ensures
      var s := Run(Native(n), actions);
      && (exists i: nat, o: nat, callId, invocation :: EndToEnd(n, s, r, receipt, k, sha, i, o, callId, invocation))
      && (forall i, j :: 0 <= i < j < |s.posts| ==> s.posts[i].phase == k ==> s.posts[j].phase != k)
  {
    var s := Run(Native(n), actions);
    var row := s.done[k];
    var service := TraceEvents(receipt.journal, row.phase.trace);
    assert receipt.rows[k] == row;
    var callId, invocation :| ApprovedChain(r, row, service, receipt.before, sha, callId, invocation);
    var i, o := ApprovalIsReviewed(n, actions, k);
    assert EndToEnd(n, s, r, receipt, k, sha, i, o, callId, invocation);
    forall a, b | 0 <= a < b < |s.posts|
      ensures s.posts[a].phase < s.posts[b].phase
    {
      AtMostOnePostPerPhase(Native(n), actions, a, b);
    }
  }

  /**
  For the crew phase: the call was blocked, no service saw its trace, and nothing was ever POSTed as
  approved for it.
  */
  lemma EvidencedCrewDenial(n: Settings, actions: seq<Action>, r: Reader, receipt: Receipt, k: nat, sha: string)
    requires
      var s := Run(Native(n), actions);
      && receipt.rows == s.done
      && k < |s.done| && s.done[k].phase.name == CrewPhase
      && RowPasses(r, receipt, k, sha)
    ensures
      var s := Run(Native(n), actions);
      && (forall i :: 0 <= i < |s.posts| && s.posts[i].phase == k ==> s.posts[i].verb != Approved)
      && exists callId ::
        CrewChain(r, s.done[k], TraceEvents(receipt.journal, s.done[k].phase.trace), callId)
  {
    var s := Run(Native(n), actions);
    assert receipt.rows[k] == s.done[k];
    EveryRunIsSafe(Native(n), actions);
    forall i | 0 <= i < |s.posts| && s.posts[i].phase == k
      ensures s.posts[i].verb != Approved
    {
      if s.posts[i].verb == Approved {
        ApprovalsAreExact(n, actions, i);
      }
    }
  }

  // ----- cleaned identifiers and raw ones

  /** The turn shows this one call, and its frames can be read. */
  ghost predicate ShowsCall(r: Reader, row: Row, callId: Json) {
    SoleCall(r, row, callId) && Hashable(callId)
  }

  lemma ShownIsHashable(r: Reader, row: Row, service: seq<Json>, callId: Json)
    requires Readable(r, row, service) && SoleCall(r, row, callId)
    ensures Hashable(callId)
  {
    var i :| 0 <= i < |row.events| && IsCall(row.events[i]);
    assert FrameReadable(r, row.events[i], row.phase.trace);
  }

  lemma PassingRowShowsOneCall(r: Reader, receipt: Receipt, k: nat, sha: string) returns (callId: Json)
    requires k < |receipt.rows| && RowPasses(r, receipt, k, sha)
    ensures ShowsCall(r, receipt.rows[k], callId)
  {
    var row := receipt.rows[k];
    var service := TraceEvents(receipt.journal, row.phase.trace);
    if row.phase.name == CrewPhase {
      callId :| CrewChain(r, row, service, callId);
    } else {
      var id, invocation :| ApprovedChain(r, row, service, receipt.before, sha, id, invocation);
      callId := id;
    }
    ShownIsHashable(r, row, service, callId);
  }

  /**
  A filed row that passes shows a single call; if no two identifiers are ever shown as that one, a
  single call arrived.
  */
  lemma EvidencedCallIsOneRawCall(n: Settings, actions: seq<Action>, r: Reader, receipt: Receipt, k: nat, sha: string)
    requires KeepsFrames(n)
    requires
      var s := Run(Native(n), actions);
      receipt.rows == s.done && k < |s.done| && RowPasses(r, receipt, k, sha)
    ensures
      var row := Run(Native(n), actions).done[k];
      exists callId :: ShowsCall(r, row, callId) &&
        (Unambiguous(n, callId) ==> exists rawId :: SoleRawCall(row, rawId))
  {
    var row := Run(Native(n), actions).done[k];
    EveryRunIsSafe(Native(n), actions);
    assert AllRecords(Native(n), row.events);
    var callId := PassingRowShowsOneCall(r, receipt, k, sha);
    if Unambiguous(n, callId) {
      var rawId := UnambiguousShowsOne(n, r, row, callId);
    }
  }

  lemma ApprovedCardShows(n: Settings, post: Post, callId: Json)
    requires ApprovedExactly(n, post)
    requires Field(PermissionMeta(n.codec, post.held.value.card.body.nativeCard), "tool_call_id") == callId
    ensures CardShows(n, post.held.value, callId)
  {
  }

  /** If no two identifiers are ever shown as the approved call's, the approved card speaks of the call that arrived. */
  lemma ApprovedCallIsRawCall(n: Settings, actions: seq<Action>, r: Reader, receipt: Receipt, k: nat, sha: string,
                              i: nat, o: nat, callId: Json, invocation: Json)
    requires KeepsFrames(n) && ReadsDumps(n.codec) && r.codec == n.codec
    requires receipt.rows == Run(Native(n), actions).done && k < |receipt.rows| && RowPasses(r, receipt, k, sha)
    requires EndToEnd(n, Run(Native(n), actions), r, receipt, k, sha, i, o, callId, invocation)
    requires Unambiguous(n, callId)
    ensures
      var s := Run(Native(n), actions);
      SoleRawCall(s.done[k], CardCallId(n, s.posts[i].held.value))
  {
    var s := Run(Native(n), actions);
    EveryRunIsSafe(Native(n), actions);
    assert AllRecords(Native(n), s.done[k].events);
    ShownIsHashable(r, s.done[k], TraceEvents(receipt.journal, s.done[k].phase.trace), callId);
    ApprovedCardShows(n, s.posts[i], callId);
    CardMeetsCall(n, r, s.done[k], s.posts[i].held.value, callId);
  }
}
