/** What a retirement was planned for, and when it goes ahead, stops, and reports success. */
module RetirementPlans {
  import opened Wrappers
  import opened JsonValues
  import opened HookRetirement
  import opened RetirementProtocol

  /** The files that attempts were started for, in order. */
  function Plans(actions: seq<Action>): seq<ImageSha>
    decreases |actions|
  {
    if actions == [] then []
    else (if actions[0].StartAttempt? then [actions[0].planned] else []) + Plans(actions[1..])
  }

  predicate StageFollows(stage: Stage, plan: ImageSha) {
    && (stage.Starting? ==> stage.planned == plan)
    && (ImageOf(stage).Some? ==> Sha256Bytes(ImageOf(stage).value) == plan)
  }

  /** Every attempt holds the file it was started for, and has changed nothing but that file's value. */
  predicate Follows(s: State, plans: seq<ImageSha>) {
    && |s.attempts| == |plans|
    && (forall i :: 0 <= i < |plans| ==> StageFollows(s.attempts[i], plans[i]))
    && (forall k :: 0 <= k < |s.log| && s.log[k].author.Attempt? ==>
        s.log[k].author.i < |plans| && s.log[k].before == plans[s.log[k].author.i].image.value)
  }

  lemma AdvancedFollows(s: State, i: nat, plan: ImageSha)
    requires i < |s.attempts| && StageFollows(s.attempts[i], plan)
    ensures StageFollows(Advance(s, i).attempts[i], plan)
  {
  }

  /** An attempt adds at most its own swap, of the value it has read. */
  lemma AdvancedLog(s: State, i: nat)
    requires i < |s.attempts|
    ensures
      var t := Advance(s, i);
      t.log == s.log || (|t.log| == |s.log| + 1 && t.log[..|s.log|] == s.log && t.log[|s.log|].author == Attempt(i)
                         && ImageOf(s.attempts[i]).Some? && t.log[|s.log|].before == ImageOf(s.attempts[i]).value.value)
  {
  }

  lemma AdvanceFollows(s: State, i: nat, plans: seq<ImageSha>)
    requires Follows(s, plans)
    ensures Follows(Advance(s, i), plans)
  {
    if i < |s.attempts| {
      AdvancedFollows(s, i, plans[i]);
      AdvancedLog(s, i);
    }
  }

  lemma LeaveFollows(s: State, i: nat, plans: seq<ImageSha>)
    requires Follows(s, plans) && i < |s.attempts|
    ensures Follows(Leave(s, i), plans)
  {
  }

  lemma StepFollows(s: State, a: Action, plans: seq<ImageSha>)
    requires Follows(s, plans)
    ensures Follows(Apply(s, a), plans + if a.StartAttempt? then [a.planned] else [])
  {
    match a
    case AttemptStep(i) =>
      AdvanceFollows(s, i, plans);
      assert plans + [] == plans;
    case Orphan(i) =>
      if i < |s.attempts| {
        LeaveFollows(s, i, plans);
      }
      assert plans + [] == plans;
    case _ => assert plans + [] == plans;
  }

  lemma {:induction false} ReplayFollows(s: State, actions: seq<Action>, plans: seq<ImageSha>)
    requires Follows(s, plans)
    ensures Follows(Replay(s, actions), plans + Plans(actions))
    decreases |actions|
  {
    if actions == [] {
      assert plans + [] == plans;
    } else {
      var added := if actions[0].StartAttempt? then [actions[0].planned] else [];
      StepFollows(s, actions[0], plans);
      ReplayFollows(Apply(s, actions[0]), actions[1..], plans + added);
      assert plans + added + Plans(actions[1..]) == plans + (added + Plans(actions[1..]));
    }
  }

  /** An attempt never touches any file but the very one it was planned for. */
  lemma AttemptsFollowPlans(config: Image, actions: seq<Action>, k: nat)
    requires k < |Run(config, actions).log| && Run(config, actions).log[k].author.Attempt?
    ensures
      var c := Run(config, actions).log[k];
      c.author.i < |Plans(actions)| && c.before == Plans(actions)[c.author.i].image.value
  {
    ReplayFollows(Initial(config), actions, []);
    assert [] + Plans(actions) == Plans(actions);
  }

  /** The file can be read, and its denied tools do or do not include the demo's own. */
  ghost predicate Lists(config: Json, entered: bool) {
    && config.Obj?
    && exists hooks, denied ::
         && Denies(config, hooks, denied) && IsRetirable(denied)
         && (Str("@aws-enforcement/crew_denied") in denied <==> entered)
  }

  /**
  An attempt goes on to the backup exactly for the planned file with the demo's own entry in it, has
  nothing to do exactly for the planned file without it, and stops otherwise.
  */
  lemma LoadsIff(s: State, i: nat, planned: ImageSha)
    requires i < |s.attempts| && s.attempts[i] == Starting(planned)
    ensures
      var next, same := Advance(s, i).attempts[i], planned == Sha256Bytes(s.config);
      && (next == Loaded(s.config) <==> same && Lists(s.config.value, true))
      && (next == NothingToDo <==> same && Lists(s.config.value, false))
      && (next == Loaded(s.config) || next == NothingToDo || next == Stopped)
  {
    if s.config.value.Obj? {
      RetiredAcceptsIff(s.config.value);
      if RetiredConfig(s.config.value).Ok? {
        RetiredChangesIff(s.config.value);
        DeniesIs(s.config.value, Hooks(s.config.value).fields, DenyList(s.config.value).items);
      }
      forall hooks, denied | Denies(s.config.value, hooks, denied)
        ensures Hooks(s.config.value) == Obj(hooks) && DenyList(s.config.value) == Arr(denied)
      {
        DeniesIs(s.config.value, hooks, denied);
      }
    }
  }

  /** A backup that is already there is reused exactly when it holds what this attempt would write. */
  lemma ReusesIff(s: State, i: nat, image: Image, p: Payload)
    requires i < |s.attempts| && s.attempts[i] == Loaded(image) && Due(image) && BackupAt(s, image) == Full(p)
    ensures Advance(s, i).attempts[i] == BackedUp(image) <==>
      p.configSha == Sha256Bytes(image) && p.before == DenyList(image.value) && p.after == DenyList(Retired(image))
    ensures Advance(s, i).backups == s.backups
  {
  }

  /** The swap happens exactly when the file still holds the value that was read first. */
  lemma SwapsIff(s: State, i: nat, image: Image, data: Json, attended: bool)
    requires i < |s.attempts| && s.attempts[i] == Comparing(image, data, attended) && Due(image)
    ensures Advance(s, i).log == s.log + [Change(Attempt(i), data, Retired(image))] <==> data == image.value
    ensures Advance(s, i).config.value == if data == image.value then Retired(image) else s.config.value
    ensures Advance(s, i).lock.None?
    ensures Advance(s, i).attempts[i] == if attended && data == image.value then Swapped(image) else Stopped
  {
  }

  /** Success is reported exactly when the file, read once more, holds the retired value. */
  lemma SucceedsIff(s: State, i: nat, image: Image)
    requires i < |s.attempts| && s.attempts[i] == Swapped(image) && Due(image)
    ensures Advance(s, i).attempts[i] == Done(image) <==> s.config.value == Retired(image)
  {
  }

  // ----- the others who write

  /** A writer that finds the lock free and keeps it writes what it wants, and frees the lock. */
  lemma WriterWritesThrough(s: State, j: nat, result: Image)
    requires s.lock.None?
    ensures
      var t := Apply(Apply(s, WriterLocks(j)), WriterWrites(j, result));
      && t.config == result && t.lock.None? && t.attempts == s.attempts && t.backups == s.backups
      && t.log == s.log + [Change(Writer(j), s.config.value, result.value)]
  {
  }

  /** A writer that gives up leaves the file as it was and the lock free. */
  lemma WriterMayGiveUp(s: State, j: nat)
    requires s.lock.None?
    ensures
      var t := Apply(Apply(s, WriterLocks(j)), WriterGivesUp(j));
      t.config == s.config && t.lock.None? && t.log == s.log && t.attempts == s.attempts
  {
  }

  /** An attempt and its child that stop leave the lock to others. */
  lemma CrashFreesLock(s: State, i: nat)
    requires i < |s.attempts| && Holds(s, Attempt(i))
    ensures
      var t := Apply(s, Crash(i));
      t.lock.None? && t.attempts[i] == Stopped && t.config == s.config && t.log == s.log
  {
  }

  /** A child outlives its attempt: it still gets the lock, swaps a file that is as it was, and reports nothing. */
  lemma OrphanSwaps(s: State, i: nat, image: Image)
    requires i < |s.attempts| && s.attempts[i] == BackedUp(image) && Due(image)
    requires s.lock.None? && s.config.value == image.value
    ensures
      var t := Apply(Apply(Apply(s, Orphan(i)), AttemptStep(i)), AttemptStep(i));
      && t.config.value == Retired(image) && t.lock.None? && t.attempts[i] == Stopped
      && t.log == s.log + [Change(Attempt(i), image.value, Retired(image))]
  {
    var left := Apply(s, Orphan(i));
    var locked := Apply(left, AttemptStep(i));
    assert locked.attempts[i] == Comparing(image, image.value, false);
    SwapsIff(locked, i, image, image.value, false);
  }
}
