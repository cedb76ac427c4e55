/**
`retire_hook` beside other writers of the same configuration file: read, back up, then compare and
swap under the writers' lock, and read again. Any number of retirement attempts and of lock-holding
writers interleave. The swap runs in a child process: an attempt may crash at any step as a whole, or
alone, leaving a child that waits for the lock or holds it to finish. Every action sequence is a run.
*/
module RetirementProtocol {
  import opened Wrappers
  import opened JsonValues
  import opened HookRetirement

  /**
  The bytes of the file: a value, its fields in canonical order, and how it happens to be written, the
  order of fields on disk included.
  */
  datatype Image = Image(value: Json, layout: nat)

  /** SHA-256, of file bytes and of canonical JSON, taken to be injective. */
  datatype ImageSha = Sha256Bytes(image: Image)
  datatype ValueSha = Sha256Canonical(value: Json)

  datatype Payload = Payload(configSha: ImageSha, before: Json, after: Json)

  datatype File = Absent | Partial | Full(payload: Payload)

  datatype Holder = Attempt(i: nat) | Writer(j: nat)

  datatype Stage =
    | Starting(planned: ImageSha)      // bound to the planned file
    | Loaded(image: Image)             // configuration read, something to retire
    | BackupOpen(image: Image)         // backup created, not yet written
    | BackedUp(image: Image)           // the child that will swap waits for the lock
    | Orphaned(image: Image)           // it still does, though the attempt is gone
    | Comparing(image: Image, data: Json, attended: bool)  // lock held, configuration read again
    | Swapped(image: Image)
    | Done(image: Image)
    | NothingToDo
    | Stopped

  datatype Change = Change(author: Holder, before: Json, after: Json)

  datatype State = State(config: Image, lock: Option<Holder>, read: Option<Json>, backups: map<ImageSha, File>,
                         attempts: seq<Stage>, log: seq<Change>)

  datatype Action =
    | StartAttempt(planned: ImageSha)
    | AttemptStep(i: nat)
    | Crash(i: nat)                    // the attempt and its child
    | Orphan(i: nat)                   // the attempt alone
    | WriterLocks(j: nat)
    | WriterWrites(j: nat, result: Image)
    | WriterGivesUp(j: nat)

  function Initial(config: Image): State { State(config, None, None, map[], [], []) }

  /** The retired value of an image whose retirement is due. */
  predicate Due(image: Image) {
    image.value.Obj? && RetiredConfig(image.value).Ok? && RetiredConfig(image.value).value != image.value
  }

  function Retired(image: Image): Json
    requires Due(image)
  {
    RetiredConfig(image.value).value
  }

  function PayloadOf(image: Image): Payload
    requires Due(image)
  {
    Payload(Sha256Bytes(image), DenyList(image.value), DenyList(Retired(image)))
  }

  function BackupAt(s: State, image: Image): File {
    if Sha256Bytes(image) in s.backups then s.backups[Sha256Bytes(image)] else Absent
  }

  /** Attempt `i` moves on; the other attempts stay where they are. */
  predicate OnlyMoves(s: State, t: State, i: nat) {
    |t.attempts| == |s.attempts| && forall j :: 0 <= j < |s.attempts| && j != i ==> t.attempts[j] == s.attempts[j]
  }

  function SetStage(s: State, i: nat, stage: Stage): (t: State)
    requires i < |s.attempts|
    ensures OnlyMoves(s, t, i)
  {
    s.(attempts := s.attempts[i := stage])
  }

  function Load(s: State, i: nat, planned: ImageSha): (t: State)
    requires i < |s.attempts|
    ensures OnlyMoves(s, t, i)
  {
    if Sha256Bytes(s.config) != planned then SetStage(s, i, Stopped)
    else if !s.config.value.Obj? || RetiredConfig(s.config.value).Err? then SetStage(s, i, Stopped)
    else if Due(s.config) then SetStage(s, i, Loaded(s.config))
    else SetStage(s, i, NothingToDo)
  }

  /** Exclusive creation; an existing backup must already hold these very bytes. */
  function OpenBackup(s: State, i: nat, image: Image): (t: State)
    requires i < |s.attempts|
    ensures OnlyMoves(s, t, i)
  {
    match BackupAt(s, image)
    case Absent => SetStage(s, i, BackupOpen(image)).(backups := s.backups[Sha256Bytes(image) := Partial])
    case Partial => SetStage(s, i, Stopped)
    case Full(p) =>
      if Due(image) && p == PayloadOf(image) then SetStage(s, i, BackedUp(image)) else SetStage(s, i, Stopped)
  }

  function WriteBackup(s: State, i: nat, image: Image): (t: State)
    requires i < |s.attempts|
    ensures OnlyMoves(s, t, i)
  {
    if !Due(image) then SetStage(s, i, Stopped)
    else SetStage(s, i, BackedUp(image)).(backups := s.backups[Sha256Bytes(image) := Full(PayloadOf(image))])
  }

  /** The lock of the product's own writers; the value under it is read again. */
  function Acquire(s: State, i: nat, image: Image, attended: bool): (t: State)
    requires i < |s.attempts|
    ensures OnlyMoves(s, t, i)
  {
    if s.lock.Some? then s
    else SetStage(s, i, Comparing(image, s.config.value, attended))
         .(lock := Some(Attempt(i)), read := Some(s.config.value))
  }

  /**
  The swap: refused as stale unless the value is still the one that was read first. Only an attempt
  that is still there goes on to check it.
  */
  function Swap(s: State, i: nat, image: Image, data: Json, attended: bool): (t: State)
    requires i < |s.attempts|
    ensures OnlyMoves(s, t, i)
  {
    if !Due(image) || Sha256Canonical(data) != Sha256Canonical(image.value) || DenyList(data) != DenyList(image.value)
    then SetStage(s, i, Stopped).(lock := None, read := None)
    else SetStage(s, i, if attended then Swapped(image) else Stopped)
         .(config := Image(Retired(image), 0), lock := None, read := None,
           log := s.log + [Change(Attempt(i), data, Retired(image))])
  }

  function Recheck(s: State, i: nat, image: Image): (t: State)
    requires i < |s.attempts|
    ensures OnlyMoves(s, t, i)
  {
    if Due(image) && s.config.value == Retired(image) then SetStage(s, i, Done(image)) else SetStage(s, i, Stopped)
  }

  function Advance(s: State, i: nat): (t: State)
    ensures OnlyMoves(s, t, i)
  {
    if i >= |s.attempts| then s else
    match s.attempts[i]
    case Starting(planned) => Load(s, i, planned)
    case Loaded(image) => OpenBackup(s, i, image)
    case BackupOpen(image) => WriteBackup(s, i, image)
    case BackedUp(image) => Acquire(s, i, image, true)
    case Orphaned(image) => Acquire(s, i, image, false)
    case Comparing(image, data, attended) => Swap(s, i, image, data, attended)
    case Swapped(image) => Recheck(s, i, image)
    case _ => s
  }

  predicate Holds(s: State, h: Holder) { s.lock == Some(h) }

  /** The attempt dies; a child it has started lives on. */
  function Leave(s: State, i: nat): (t: State)
    requires i < |s.attempts|
    ensures OnlyMoves(s, t, i)
  {
    match s.attempts[i]
    case BackedUp(image) => SetStage(s, i, Orphaned(image))
    case Orphaned(_) => s
    case Comparing(image, data, _) => SetStage(s, i, Comparing(image, data, false))
    case _ => SetStage(s, i, Stopped)
  }

  function Apply(s: State, a: Action): State {
    match a
    case StartAttempt(planned) => s.(attempts := s.attempts + [Starting(planned)])
    case AttemptStep(i) => Advance(s, i)
    case Crash(i) =>
      if i >= |s.attempts| then s
      else if Holds(s, Attempt(i)) then SetStage(s, i, Stopped).(lock := None, read := None)
      else SetStage(s, i, Stopped)
    case Orphan(i) => if i < |s.attempts| then Leave(s, i) else s
    case WriterLocks(j) =>
      if s.lock.Some? then s else s.(lock := Some(Writer(j)), read := Some(s.config.value))
    case WriterWrites(j, result) =>
      if !Holds(s, Writer(j)) || s.read.None? then s
      else s.(config := result, lock := None, read := None,
              log := s.log + [Change(Writer(j), s.read.value, result.value)])
    case WriterGivesUp(j) => if Holds(s, Writer(j)) then s.(lock := None, read := None) else s
  }

  /** Running on from a state. */
  function Replay(s: State, actions: seq<Action>): State
    decreases |actions|
  {
    if actions == [] then s else Replay(Apply(s, actions[0]), actions[1..])
  }

  function Run(config: Image, actions: seq<Action>): State { Replay(Initial(config), actions) }

  // ----- what every run keeps

  /** Each change was made to what the previous one left: nothing is overwritten unseen. */
  predicate Chained(first: Json, log: seq<Change>, last: Json) {
    && (log == [] ==> first == last)
    && (log != [] ==> log[0].before == first && log[|log| - 1].after == last)
    && (forall k :: 0 < k < |log| ==> log[k].before == log[k - 1].after)
  }

  /** Whoever holds the lock has read the current value. */
  predicate LockSound(s: State) {
    && (s.lock.Some? ==> s.read == Some(s.config.value))
    && (s.lock.Some? && s.lock.value.Attempt? ==>
        s.lock.value.i < |s.attempts| && s.attempts[s.lock.value.i].Comparing?)
    && (forall i :: 0 <= i < |s.attempts| && s.attempts[i].Comparing? ==>
        Holds(s, Attempt(i)) && s.attempts[i].data == s.config.value)
  }

  function ImageOf(stage: Stage): Option<Image> {
    match stage
    case Loaded(image) => Some(image)
    case BackupOpen(image) => Some(image)
    case BackedUp(image) => Some(image)
    case Orphaned(image) => Some(image)
    case Comparing(image, _, _) => Some(image)
    case Swapped(image) => Some(image)
    case Done(image) => Some(image)
    case _ => None
  }

  predicate PastBackup(stage: Stage) {
    stage.BackedUp? || stage.Orphaned? || stage.Comparing? || stage.Swapped? || stage.Done?
  }

  /** Attempts only hold images that are due; past the backup step, the full backup is on disk. */
  predicate StageSound(s: State, stage: Stage) {
    ImageOf(stage).Some? ==>
      var image := ImageOf(stage).value;
      Due(image) && (PastBackup(stage) ==> BackupAt(s, image) == Full(PayloadOf(image)))
  }

  predicate AttemptsSound(s: State) {
    forall i :: 0 <= i < |s.attempts| ==> StageSound(s, s.attempts[i])
  }

  ghost predicate BackupsSound(s: State) {
    forall h :: h in s.backups && s.backups[h].Full? ==> Due(h.image) && s.backups[h].payload == PayloadOf(h.image)
  }

  /** A retirement in the log is exact: one entry less, nothing else, and its backup is on disk. */
  ghost predicate ExactRetirement(s: State, c: Change) {
    && c.before.Obj? && RetiredConfig(c.before) == Ok(c.after) && c.after != c.before
    && exists h :: h in s.backups && s.backups[h].Full? && h.image.value == c.before
  }

  ghost predicate LogSound(s: State) {
    forall k :: 0 <= k < |s.log| && s.log[k].author.Attempt? ==> ExactRetirement(s, s.log[k])
  }

  predicate IsSwapOf(c: Change, i: nat, stage: Stage) {
    ImageOf(stage).Some? && Due(ImageOf(stage).value)
    && c == Change(Attempt(i), ImageOf(stage).value.value, Retired(ImageOf(stage).value))
  }

  predicate Claims(stage: Stage) { stage.Swapped? || stage.Done? }

  ghost predicate Reported(s: State) {
    forall i :: 0 <= i < |s.attempts| && Claims(s.attempts[i]) ==>
      exists k :: 0 <= k < |s.log| && IsSwapOf(s.log[k], i, s.attempts[i])
  }

  ghost predicate Inv(config: Image, s: State) {
    && Chained(config.value, s.log, s.config.value)
    && LockSound(s) && AttemptsSound(s) && BackupsSound(s) && LogSound(s) && Reported(s)
  }

  lemma LockKept(s: State, a: Action)
    requires LockSound(s)
    ensures LockSound(Apply(s, a))
  {
  }

  /** The value changes only together with the log, by one change made to the current value. */
  predicate ChangesOnce(s: State, t: State) {
    || (t.log == s.log && t.config.value == s.config.value)
    || (|t.log| == |s.log| + 1 && t.log[..|s.log|] == s.log
        && t.log[|s.log|].before == s.config.value && t.log[|s.log|].after == t.config.value)
  }

  lemma StepChangesOnce(s: State, a: Action)
    requires LockSound(s)
    ensures ChangesOnce(s, Apply(s, a))
  {
  }

  lemma ChainGrows(config: Image, s: State, t: State)
    requires Chained(config.value, s.log, s.config.value) && ChangesOnce(s, t)
    ensures Chained(config.value, t.log, t.config.value)
  {
    assert forall k :: 0 <= k < |s.log| ==> t.log[k] == s.log[k];
  }

  lemma ChainKept(config: Image, s: State, a: Action)
    requires LockSound(s) && Chained(config.value, s.log, s.config.value)
    ensures Chained(config.value, Apply(s, a).log, Apply(s, a).config.value)
  {
    StepChangesOnce(s, a);
    ChainGrows(config, s, Apply(s, a));
  }

  /** A written backup stays as it is. */
  ghost predicate BackupsGrow(s: State, t: State) {
    forall h :: h in s.backups && s.backups[h].Full? ==> h in t.backups && t.backups[h] == s.backups[h]
  }

  lemma OpenBackupKeeps(s: State, i: nat, image: Image)
    requires i < |s.attempts| && BackupsSound(s)
    ensures BackupsSound(OpenBackup(s, i, image)) && BackupsGrow(s, OpenBackup(s, i, image))
  {
  }

  lemma WriteBackupKeeps(s: State, i: nat, image: Image)
    requires i < |s.attempts| && BackupsSound(s)
    ensures BackupsSound(WriteBackup(s, i, image)) && BackupsGrow(s, WriteBackup(s, i, image))
  {
  }

  lemma OthersLeaveBackups(s: State, a: Action)
    requires a.AttemptStep? && a.i < |s.attempts| ==> !s.attempts[a.i].Loaded? && !s.attempts[a.i].BackupOpen?
    ensures Apply(s, a).backups == s.backups
  {
  }

  lemma BackupsKept(s: State, a: Action)
    requires BackupsSound(s)
    ensures BackupsSound(Apply(s, a)) && BackupsGrow(s, Apply(s, a))
  {
    if a.AttemptStep? && a.i < |s.attempts| && s.attempts[a.i].Loaded? {
      OpenBackupKeeps(s, a.i, s.attempts[a.i].image);
    } else if a.AttemptStep? && a.i < |s.attempts| && s.attempts[a.i].BackupOpen? {
      WriteBackupKeeps(s, a.i, s.attempts[a.i].image);
    } else {
      OthersLeaveBackups(s, a);
    }
  }

  lemma OpenedIsSound(s: State, i: nat, image: Image)
    requires i < |s.attempts| && Due(image) && BackupsSound(s)
    ensures StageSound(OpenBackup(s, i, image), OpenBackup(s, i, image).attempts[i])
  {
  }

  lemma WrittenIsSound(s: State, i: nat, image: Image)
    requires i < |s.attempts|
    ensures StageSound(WriteBackup(s, i, image), WriteBackup(s, i, image).attempts[i])
  {
  }

  /** An advancing attempt stays sound. */
  lemma AdvancedIsSound(s: State, i: nat)
    requires i < |s.attempts| && StageSound(s, s.attempts[i]) && BackupsSound(s)
    ensures StageSound(Advance(s, i), Advance(s, i).attempts[i])
  {
    match s.attempts[i]
    case Loaded(image) => OpenedIsSound(s, i, image);
    case BackupOpen(image) => WrittenIsSound(s, i, image);
    case _ =>
  }

  lemma AttemptsKept(s: State, a: Action)
    requires LockSound(s) && AttemptsSound(s) && BackupsSound(s)
    ensures AttemptsSound(Apply(s, a))
  {
    BackupsKept(s, a);
    var t := Apply(s, a);
    forall j | 0 <= j < |t.attempts|
      ensures StageSound(t, t.attempts[j])
    {
      if j < |s.attempts| {
        if a.AttemptStep? && a.i < |s.attempts| {
          AdvancedIsSound(s, a.i);
        }
      }
    }
  }

  /** A change that an attempt adds is its swap, made of an image whose backup is on disk. */
  lemma AddedIsExact(s: State, a: Action)
    requires LockSound(s) && AttemptsSound(s) && |Apply(s, a).log| == |s.log| + 1
    ensures
      var t := Apply(s, a);
      t.log[|s.log|].author.Attempt? ==> ExactRetirement(t, t.log[|s.log|])
  {
  }

  lemma ExactStays(s: State, t: State, c: Change)
    requires ExactRetirement(s, c) && BackupsGrow(s, t)
    ensures ExactRetirement(t, c)
  {
  }

  lemma LogKept(s: State, a: Action)
    requires LockSound(s) && AttemptsSound(s) && BackupsSound(s) && LogSound(s)
    ensures LogSound(Apply(s, a))
  {
    var t := Apply(s, a);
    StepChangesOnce(s, a);
    BackupsKept(s, a);
    forall k | 0 <= k < |t.log| && t.log[k].author.Attempt?
      ensures ExactRetirement(t, t.log[k])
    {
      if k < |s.log| {
        assert t.log[k] == s.log[k];
        ExactStays(s, t, s.log[k]);
      } else {
        AddedIsExact(s, a);
      }
    }
  }

  predicate SameClaim(before: Stage, after: Stage) {
    Claims(before) && ImageOf(before) == ImageOf(after)
  }

  lemma AdvancedClaim(s: State, i: nat)
    requires LockSound(s) && i < |s.attempts| && StageSound(s, s.attempts[i]) && Claims(Advance(s, i).attempts[i])
    ensures
      var t := Advance(s, i);
      SameClaim(s.attempts[i], t.attempts[i]) || (t.log != [] && IsSwapOf(t.log[|t.log| - 1], i, t.attempts[i]))
  {
  }

  /** An attempt comes to claim a swap only by making it. */
  lemma ClaimsAreEarned(s: State, a: Action, j: nat)
    requires LockSound(s) && AttemptsSound(s) && j < |Apply(s, a).attempts| && Claims(Apply(s, a).attempts[j])
    ensures
      var t := Apply(s, a);
      || (j < |s.attempts| && SameClaim(s.attempts[j], t.attempts[j]))
      || (t.log != [] && IsSwapOf(t.log[|t.log| - 1], j, t.attempts[j]))
  {
    if a.AttemptStep? {
      if a.i < |s.attempts| {
        if a.i == j { AdvancedClaim(s, j); }
      }
    }
  }

  lemma LogExtends(s: State, a: Action)
    ensures s.log <= Apply(s, a).log
  {
  }

  lemma ReportKept(s: State, a: Action)
    requires LockSound(s) && AttemptsSound(s) && Reported(s)
    ensures Reported(Apply(s, a))
  {
    var t := Apply(s, a);
    LogExtends(s, a);
    forall j | 0 <= j < |t.attempts| && Claims(t.attempts[j])
      ensures exists k :: 0 <= k < |t.log| && IsSwapOf(t.log[k], j, t.attempts[j])
    {
      ClaimsAreEarned(s, a, j);
      if j < |s.attempts| && SameClaim(s.attempts[j], t.attempts[j]) {
        var k :| 0 <= k < |s.log| && IsSwapOf(s.log[k], j, s.attempts[j]);
        assert IsSwapOf(t.log[k], j, t.attempts[j]);
      }
    }
  }

  lemma StepIsSound(config: Image, s: State, a: Action)
    requires Inv(config, s)
    ensures Inv(config, Apply(s, a))
  {
    LockKept(s, a);
    ChainKept(config, s, a);
    BackupsKept(s, a);
    AttemptsKept(s, a);
    LogKept(s, a);
    ReportKept(s, a);
  }

  lemma {:induction false} ReplayIsSound(config: Image, s: State, actions: seq<Action>)
    requires Inv(config, s)
    ensures Inv(config, Replay(s, actions))
    decreases |actions|
  {
    if actions != [] {
      StepIsSound(config, s, actions[0]);
      ReplayIsSound(config, Apply(s, actions[0]), actions[1..]);
    }
  }

  lemma EveryRunIsSound(config: Image, actions: seq<Action>)
    ensures Inv(config, Run(config, actions))
  {
    ReplayIsSound(config, Initial(config), actions);
  }

  // ----- promises over every run

  /**
  No concurrent update is lost: from the first configuration to the current one, every change by a
  writer or an attempt was applied to exactly what the change before it left.
  */
  lemma NoUpdateIsLost(config: Image, actions: seq<Action>)
    ensures Chained(config.value, Run(config, actions).log, Run(config, actions).config.value)
  {
    EveryRunIsSound(config, actions);
  }

  /** The only thing an attempt ever does to the configuration: take the one entry out, once it is backed up. */
  lemma AttemptsOnlyRetire(config: Image, actions: seq<Action>, k: nat) returns (e: nat)
    requires k < |Run(config, actions).log| && Run(config, actions).log[k].author.Attempt?
    ensures
      var s := Run(config, actions);
      var c := s.log[k];
      && ExactRetirement(s, c)
      && DenyList(c.before).Arr? && e < |DenyList(c.before).items| && DenyList(c.before).items[e] == Str(DENY)
      && DenyList(c.after) == Arr(DenyList(c.before).items[..e] + DenyList(c.before).items[e + 1..])
  {
    EveryRunIsSound(config, actions);
    e := RetiredRemovesOneEntry(Run(config, actions).log[k].before);
  }

  /** Two retirements never follow each other: a writer has put the entry back in between. */
  lemma RetirementsAreSeparated(config: Image, actions: seq<Action>, k: nat)
    requires k + 1 < |Run(config, actions).log| && Run(config, actions).log[k].author.Attempt?
    ensures Run(config, actions).log[k + 1].author.Writer?
  {
    EveryRunIsSound(config, actions);
    var s := Run(config, actions);
    assert ExactRetirement(s, s.log[k]);
    RetiredTwice(s.log[k].before);
    assert s.log[k + 1].before == s.log[k].after;
    assert !ExactRetirement(s, s.log[k + 1]);
  }

  /** An attempt that reports success has made its own swap of the file it had planned for. */
  lemma SuccessIsReal(config: Image, actions: seq<Action>, i: nat)
    requires i < |Run(config, actions).attempts| && Run(config, actions).attempts[i].Done?
    ensures
      var s := Run(config, actions);
      exists k :: 0 <= k < |s.log| && IsSwapOf(s.log[k], i, s.attempts[i])
  {
    EveryRunIsSound(config, actions);
  }

  // ----- rerunning

  function Steps(s: State, i: nat, n: nat): (t: State)
    ensures |t.attempts| == |s.attempts|
    decreases n
  {
    if n == 0 then s else Steps(Advance(s, i), i, n - 1)
  }

  function Started(s: State): State {
    Apply(s, StartAttempt(Sha256Bytes(s.config)))
  }

  /** A fresh attempt for the present file, run undisturbed to its end. */
  function Rerun(s: State): (t: State)
    ensures |t.attempts| == |s.attempts| + 1
  {
    Steps(Started(s), |s.attempts|, 6)
  }

  lemma {:induction false} IdleSteps(s: State, i: nat, n: nat)
    requires i < |s.attempts| && (s.attempts[i].Done? || s.attempts[i].Stopped?)
    ensures Steps(s, i, n) == s
  {
    if n > 0 {
      assert Advance(s, i) == s;
      IdleSteps(s, i, n - 1);
    }
  }

  /** What a completed retirement leaves behind. */
  predicate Completed(s: State, i: nat, t: State)
    requires Due(s.config)
  {
    i < |t.attempts| && t.attempts[i] == Done(s.config) && t.config.value == Retired(s.config)
  }

  /** From a written backup on, the swap and the check go through. */
  lemma BackedUpCompletes(s: State, i: nat, n: nat)
    requires i < |s.attempts| && Due(s.config) && s.lock.None? && s.attempts[i] == BackedUp(s.config) && n >= 3
    ensures Completed(s, i, Steps(s, i, n)) && Steps(s, i, n).backups == s.backups
  {
    var s1 := Advance(s, i);
    assert s1.attempts[i] == Comparing(s.config, s.config.value, true);
    assert s1.config == s.config && s1.backups == s.backups;
    var s2 := Advance(s1, i);
    assert s2.attempts[i] == Swapped(s.config) && s2.config.value == Retired(s.config) && s2.backups == s.backups;
    var s3 := Advance(s2, i);
    assert s3.attempts[i] == Done(s.config) && s3.config == s2.config && s3.backups == s.backups;
    IdleSteps(s3, i, n - 3);
    assert Steps(s, i, n) == Steps(s1, i, n - 1) == Steps(s2, i, n - 2) == Steps(s3, i, n - 3);
  }

  lemma RerunLoads(s: State)
    requires Due(s.config)
    ensures
      var s1 := Started(s).(attempts := s.attempts + [Loaded(s.config)]);
      Rerun(s) == Steps(OpenBackup(s1, |s.attempts|, s.config), |s.attempts|, 4)
  {
    var i := |s.attempts|;
    var s1 := Started(s).(attempts := s.attempts + [Loaded(s.config)]);
    assert Started(s).attempts[i := Loaded(s.config)] == s1.attempts;
    assert Advance(Started(s), i) == s1;
    assert Advance(s1, i) == OpenBackup(s1, i, s.config);
    assert Steps(Started(s), i, 6) == Steps(s1, i, 5) == Steps(OpenBackup(s1, i, s.config), i, 4);
  }

  /**
  A rerun on a due, unlocked configuration completes if and only if the backup of this very file is
  not a half-written one: absent, it is written; complete, it is reused as it is.
  */
  lemma RerunCompletesIff(s: State)
    requires BackupsSound(s) && Due(s.config) && s.lock.None?
    ensures
      var t := Rerun(s);
      if BackupAt(s, s.config).Partial? then t.attempts[|s.attempts|].Stopped? && t.config == s.config
      else Completed(s, |s.attempts|, t) && BackupAt(t, s.config) == Full(PayloadOf(s.config))
           && (BackupAt(s, s.config).Full? ==> t.backups == s.backups)
  {
    var i := |s.attempts|;
    RerunLoads(s);
    var s1 := Started(s).(attempts := s.attempts + [Loaded(s.config)]);
    var s2 := OpenBackup(s1, i, s.config);
    assert BackupAt(s1, s.config) == BackupAt(s, s.config);
    if BackupAt(s, s.config).Partial? {
      IdleSteps(s2, i, 4);
    } else if BackupAt(s, s.config).Full? {
      BackedUpCompletes(s2, i, 4);
    } else {
      var s3 := WriteBackup(s2, i, s.config);
      assert Advance(s2, i) == s3;
      BackedUpCompletes(s3, i, 3);
    }
  }

  /** A crash between backup and swap is recoverable: the rerun reuses the identical backup and completes. */
  lemma CrashAfterBackupIsRecoverable(config: Image, actions: seq<Action>, i: nat)
    requires
      var s := Run(config, actions);
      i < |s.attempts| && s.attempts[i] == BackedUp(s.config) && s.lock.None?
    ensures
      var s := Run(config, actions);
      var crashed := Apply(s, Crash(i));
      Due(s.config) && Completed(s, |s.attempts|, Rerun(crashed)) && Rerun(crashed).backups == s.backups
  {
    EveryRunIsSound(config, actions);
    var s := Run(config, actions);
    assert StageSound(s, s.attempts[i]);
    RerunCompletesIff(Apply(s, Crash(i)));
  }

  /** An attempt that crashes after creating its backup and before writing it. */
  function CrashMidBackup(config: Image): seq<Action> {
    [StartAttempt(Sha256Bytes(config)), AttemptStep(0), AttemptStep(0), Crash(0)]
  }

  /** The crash leaves the backup created, empty, and without an owner. */
  lemma CrashLeavesPartial(config: Image)
    requires Due(config)
    ensures
      var s := Run(config, CrashMidBackup(config));
      s.config == config && s.lock.None? && BackupAt(s, config) == Partial
  {
    var actions := CrashMidBackup(config);
    var s0 := Initial(config);
    var s1 := s0.(attempts := [Starting(Sha256Bytes(config))]);
    assert [] + [Starting(Sha256Bytes(config))] == [Starting(Sha256Bytes(config))];
    assert Apply(s0, actions[0]) == s1;
    var s2 := Initial(config).(attempts := [Loaded(config)]);
    assert Apply(s1, actions[1]) == s2;
    var s3 := Initial(config).(attempts := [BackupOpen(config)], backups := map[Sha256Bytes(config) := Partial]);
    assert Apply(s2, actions[2]) == s3;
    assert actions[1..][1..][1..][1..] == [];
    assert Replay(s3, actions[1..][1..][1..]) == Apply(s3, actions[3]);
    assert Replay(s2, actions[1..][1..]) == Replay(s3, actions[1..][1..][1..]);
    assert Replay(s0, actions) == Replay(s1, actions[1..]) == Replay(s2, actions[1..][1..]);
  }

  /** Such a crash leaves a file that no rerun for the same configuration gets past. */
  lemma CrashDuringBackupBlocksReruns(config: Image)
    requires Due(config)
    ensures
      var s := Run(config, CrashMidBackup(config));
      s.config == config && s.lock.None? && Rerun(s).attempts[|s.attempts|].Stopped? && Rerun(s).config == config
  {
    CrashLeavesPartial(config);
    EveryRunIsSound(config, CrashMidBackup(config));
    RerunCompletesIff(Run(config, CrashMidBackup(config)));
  }

  // ----- a half-written backup is for good

  /** At most one attempt is writing the backup of a file, and what is there so far is half written. */
  predicate OpenSound(s: State) {
    && (forall i :: 0 <= i < |s.attempts| && s.attempts[i].BackupOpen? ==> BackupAt(s, s.attempts[i].image) == Partial)
    && (forall i, j :: 0 <= i < j < |s.attempts| && s.attempts[i].BackupOpen? && s.attempts[j].BackupOpen? ==>
        s.attempts[i].image != s.attempts[j].image)
  }

  lemma OpenStaysElsewhere(s: State, t: State, i: nat)
    requires OpenSound(s) && i < |s.attempts| && OnlyMoves(s, t, i) && t.backups == s.backups
    requires i < |t.attempts| && !t.attempts[i].BackupOpen?
    ensures OpenSound(t)
  {
  }

  lemma OpenBackupKeepsOpen(s: State, i: nat, image: Image)
    requires OpenSound(s) && i < |s.attempts| && s.attempts[i] == Loaded(image)
    ensures OpenSound(OpenBackup(s, i, image))
  {
    var t := OpenBackup(s, i, image);
    if BackupAt(s, image).Absent? {
      assert forall j :: 0 <= j < |s.attempts| && s.attempts[j].BackupOpen? ==> s.attempts[j].image != image;
    } else {
      OpenStaysElsewhere(s, t, i);
    }
  }

  lemma WriteBackupKeepsOpen(s: State, i: nat, image: Image)
    requires OpenSound(s) && i < |s.attempts| && s.attempts[i] == BackupOpen(image)
    ensures OpenSound(WriteBackup(s, i, image))
  {
    assert forall j :: 0 <= j < |s.attempts| && j != i && s.attempts[j].BackupOpen? ==> s.attempts[j].image != image;
  }

  lemma AdvanceKeepsOpen(s: State, i: nat)
    requires OpenSound(s) && i < |s.attempts|
    ensures OpenSound(Advance(s, i))
  {
    match s.attempts[i]
    case Loaded(image) => OpenBackupKeepsOpen(s, i, image);
    case BackupOpen(image) => WriteBackupKeepsOpen(s, i, image);
    case _ => if Advance(s, i) != s { OpenStaysElsewhere(s, Advance(s, i), i); }
  }

  lemma OpenKept(s: State, a: Action)
    requires OpenSound(s)
    ensures OpenSound(Apply(s, a))
  {
    match a
    case AttemptStep(i) => if i < |s.attempts| { AdvanceKeepsOpen(s, i); }
    case Crash(i) => if i < |s.attempts| { OpenStaysElsewhere(s, Apply(s, a), i); }
    case _ =>
  }

  lemma {:induction false} ReplayKeepsOpen(s: State, actions: seq<Action>)
    requires OpenSound(s)
    ensures OpenSound(Replay(s, actions))
    decreases |actions|
  {
    if actions != [] {
      OpenKept(s, actions[0]);
      ReplayKeepsOpen(Apply(s, actions[0]), actions[1..]);
    }
  }

  /** Nobody is writing this backup, and nobody has it behind them. */
  predicate Untaken(stage: Stage, image: Image) {
    ImageOf(stage) == Some(image) ==> !stage.BackupOpen? && !PastBackup(stage)
  }

  /** The backup of this file is half written, with nobody left to write it: no attempt gets past it. */
  predicate Stuck(s: State, image: Image) {
    BackupAt(s, image) == Partial && forall j :: 0 <= j < |s.attempts| ==> Untaken(s.attempts[j], image)
  }

  lemma AdvanceKeepsStuck(s: State, i: nat, image: Image)
    requires Stuck(s, image) && i < |s.attempts|
    ensures Stuck(Advance(s, i), image)
  {
    var t := Advance(s, i);
    assert Untaken(s.attempts[i], image);
    assert BackupAt(t, image) == Partial && Untaken(t.attempts[i], image);
    forall j | 0 <= j < |t.attempts|
      ensures Untaken(t.attempts[j], image)
    {
      assert j != i ==> t.attempts[j] == s.attempts[j];
    }
  }

  lemma StuckKept(s: State, a: Action, image: Image)
    requires Stuck(s, image)
    ensures Stuck(Apply(s, a), image)
  {
    if a.AttemptStep? && a.i < |s.attempts| {
      AdvanceKeepsStuck(s, a.i, image);
    }
  }

  lemma {:induction false} ReplayKeepsStuck(s: State, actions: seq<Action>, image: Image)
    requires Stuck(s, image)
    ensures Stuck(Replay(s, actions), image)
    decreases |actions|
  {
    if actions != [] {
      StuckKept(s, actions[0], image);
      ReplayKeepsStuck(Apply(s, actions[0]), actions[1..], image);
    }
  }

  lemma CrashSticks(s: State, i: nat, image: Image)
    requires AttemptsSound(s) && OpenSound(s) && i < |s.attempts| && s.attempts[i] == BackupOpen(image)
    ensures Stuck(Apply(s, Crash(i)), image)
  {
    forall j | 0 <= j < |s.attempts| && j != i
      ensures Untaken(s.attempts[j], image)
    {
      assert StageSound(s, s.attempts[j]);
    }
  }

  /**
  Once an attempt has crashed while writing its backup, whatever anybody does from then on that backup
  stays half written, and no attempt at that very file gets to the swap.
  */
  lemma CrashDuringBackupIsForGood(config: Image, actions: seq<Action>, i: nat, image: Image, more: seq<Action>)
    requires i < |Run(config, actions).attempts| && Run(config, actions).attempts[i] == BackupOpen(image)
    ensures Stuck(Replay(Apply(Run(config, actions), Crash(i)), more), image)
  {
    var s := Run(config, actions);
    EveryRunIsSound(config, actions);
    ReplayKeepsOpen(Initial(config), actions);
    CrashSticks(s, i, image);
    ReplayKeepsStuck(Apply(s, Crash(i)), more, image);
  }
}
