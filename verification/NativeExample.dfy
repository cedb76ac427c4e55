/**
Complete runs whose evidence passes, with any JSON library and any sanitizer that leaves the words of a
few concrete frames alone: what `NativeRun` proves of such runs is about something. The first passes
even with two different calls, when their identifiers are shown alike.
*/
module NativeExample {
  import opened Wrappers
  import opened JsonValues
  import opened NativeRecords
  import opened Sanitizer
  import opened SpelledText
  import opened ApprovalProtocol
  import opened ApprovalProgress
  import opened NativeSettings
  import opened Evidence
  import opened EvidenceSample
  import opened RawCalls

  /** A call that the client blocked before anyone could be asked. */
  function BlockedData(id: string): Json {
    Obj([("role", Str("tool")), ("content", Str(BLOCK_SIGN + BLOCK_TEXT)), ("tool_call_id", Str(id)),
         ("input_preview", SAMPLE_INPUT), ("slot", Str("s"))])
  }

  // ----- the settings of the sample runs

  /** The library prints text as it is and writes a trace where there is one; the input is not hidden. */
  predicate PlaysSample(c: Config, a: string) {
    && c.slot == "s" && c.codec.str(Str("q")) == "q" && !c.hides({"q"}, SAMPLE_INPUT)
    && Includes(c.codec.dump(CardData(a)), "t") && Includes(c.codec.dump(BlockedData(a)), "t")
  }

  /** The sanitizer shows call identifier `x` as `id`, and the rest of the frames as they are. */
  predicate ShowsFrames(c: Config, known: set<string>, x: string, id: string) {
    && c.clean(known, CardData(x)) == CardData(id) && c.clean(known, CallData(x)) == CallData(id)
    && c.clean(known, ResultData(x)) == ResultData(id) && c.clean(known, DONE_DATA) == DONE_DATA
    && c.clean(known, BlockedData(x)) == BlockedData(id)
  }

  /** Both call identifiers, `a` and `b`, are shown as `id`. */
  predicate ShowsSample(c: Config, a: string, b: string, id: string) {
    && id != "" && ShowsFrames(c, {}, a, id) && ShowsFrames(c, {"q"}, a, id) && ShowsFrames(c, {"q"}, b, id)
  }

  // ----- sanitizers that show the sample so

  predicate PlainNames(c: Cleaner) {
    && PlainKey(c, "meta") && PlainKey(c, "role") && PlainKey(c, "slot") && PlainKey(c, "tool_call_id")
    && PlainKey(c, "tool_input") && PlainKey(c, "request_id") && PlainKey(c, "input_preview")
    && PlainKey(c, "output") && PlainKey(c, "content") && PlainKey(c, "trace_id")
  }

  predicate ShowsText(c: Cleaner, x: string, y: string) { !IsNested(c, x) && c.text(x) == y }

  predicate PlainWords(c: Cleaner) {
    && ShowsText(c, "t", "t") && ShowsText(c, "q", "q") && ShowsText(c, "s", "s") && ShowsText(c, "o", "o")
    && ShowsText(c, "permission", "permission") && ShowsText(c, "tool", "tool")
    && ShowsText(c, BLOCK_SIGN + BLOCK_TEXT, BLOCK_SIGN + BLOCK_TEXT)
  }

  /** The frames' names and words stay as they are; `x`, one of the call identifiers, is shown as `id`. */
  predicate TreatsFrames(c: Cleaner, x: string, id: string) {
    PlainNames(c) && PlainWords(c) && ShowsText(c, x, id)
  }

  /** A slot, a library and a sanitizer under which the sample frames are what the protocol expects. */
  ghost predicate SampleSettings(n: Settings, a: string, b: string, id: string) {
    && n.slot == "s" && n.codec.str(Str("q")) == "q" && !Hidden(n, {"q"}, SAMPLE_INPUT) && id != ""
    && Includes(n.codec.dump(CardData(a)), "t") && Includes(n.codec.dump(BlockedData(a)), "t")
    && KeepsFrames(n)
    && (forall known: set<string> ::
        TreatsFrames(CleanerAt(n, known), a, id) && TreatsFrames(CleanerAt(n, known), b, id))
  }

  lemma TextShown(c: Cleaner, x: string, y: string)
    requires ShowsText(c, x, y)
    ensures Clean(c, Str(x)) == Str(y)
  {
  }

  lemma OneShown(c: Cleaner, k: string, v: Json, w: Json)
    requires PlainKey(c, k) && Clean(c, v) == w
    ensures Clean(c, Obj([(k, v)])) == Obj([(k, w)])
  {
    PlainObjectStays(c, [(k, v)], [(k, w)]);
  }

  predicate ThreeNames(c: Cleaner, k: string, l: string, m: string) {
    PlainKey(c, k) && PlainKey(c, l) && PlainKey(c, m) && k != l && k != m && l != m
  }

  function Three(k: string, u: Json, l: string, v: Json, m: string, w: Json): Json { Obj([(k, u), (l, v), (m, w)]) }

  lemma ThreeShown(c: Cleaner, k: string, u: Json, x: Json, l: string, v: Json, y: Json, m: string, w: Json, z: Json)
    requires ThreeNames(c, k, l, m) && Clean(c, u) == x && Clean(c, v) == y && Clean(c, w) == z
    ensures Clean(c, Three(k, u, l, v, m, w)) == Three(k, x, l, y, m, z)
  {
    var fields, shown := [(k, u), (l, v), (m, w)], [(k, x), (l, y), (m, z)];
    assert CleanedInPlace(c, fields, shown);
    PlainObjectStays(c, fields, shown);
  }

  lemma InputShown(c: Cleaner, x: string, id: string)
    requires TreatsFrames(c, x, id)
    ensures Clean(c, SAMPLE_INPUT) == SAMPLE_INPUT
  {
    TextShown(c, "t", "t");
    OneShown(c, "trace_id", Str("t"), Str("t"));
  }

  lemma DoneShown(c: Cleaner, x: string, id: string)
    requires TreatsFrames(c, x, id)
    ensures Clean(c, DONE_DATA) == DONE_DATA
  {
    TextShown(c, "s", "s");
    OneShown(c, "slot", Str("s"), Str("s"));
  }

  lemma CallShown(c: Cleaner, x: string, id: string)
    requires TreatsFrames(c, x, id)
    ensures Clean(c, CallData(x)) == CallData(id)
  {
    InputShown(c, x, id);
    TextShown(c, x, id);
    TextShown(c, "s", "s");
    ThreeShown(c, "tool_call_id", Str(x), Str(id), "input_preview", SAMPLE_INPUT, SAMPLE_INPUT, "slot", Str("s"),
               Str("s"));
  }

  lemma ResultShown(c: Cleaner, x: string, id: string)
    requires TreatsFrames(c, x, id)
    ensures Clean(c, ResultData(x)) == ResultData(id)
  {
    TextShown(c, x, id);
    TextShown(c, "o", "o");
    TextShown(c, "s", "s");
    ThreeShown(c, "tool_call_id", Str(x), Str(id), "output", Str("o"), Str("o"), "slot", Str("s"), Str("s"));
  }

  lemma MetaShown(c: Cleaner, x: string, id: string)
    requires TreatsFrames(c, x, id)
    ensures Clean(c, MetaData(x)) == MetaData(id)
  {
    InputShown(c, x, id);
    TextShown(c, x, id);
    TextShown(c, "q", "q");
    ThreeShown(c, "tool_call_id", Str(x), Str(id), "tool_input", SAMPLE_INPUT, SAMPLE_INPUT, "request_id", Str("q"),
               Str("q"));
  }

  lemma CardShown(c: Cleaner, x: string, id: string)
    requires TreatsFrames(c, x, id)
    ensures Clean(c, CardData(x)) == CardData(id)
  {
    MetaShown(c, x, id);
    TextShown(c, "permission", "permission");
    TextShown(c, "s", "s");
    ThreeShown(c, "meta", MetaData(x), MetaData(id), "role", Str("permission"), Str("permission"), "slot", Str("s"),
               Str("s"));
  }

  predicate TwoMoreNames(c: Cleaner, i: string, j: string, k: string, l: string, m: string) {
    && ThreeNames(c, k, l, m) && PlainKey(c, i) && PlainKey(c, j)
    && i != j && i != k && i != l && i != m && j != k && j != l && j != m
  }

  /** The call and its argument in front of three other fields. */
  lemma FiveNames(c: Cleaner, i: string, s: Json, j: string, t: Json, k: string, u: Json, l: string, v: Json,
                  m: string, w: Json)
    requires TwoMoreNames(c, i, j, k, l, m)
    ensures var fields := [(i, s), (j, t), (k, u), (l, v), (m, w)]; UniqueKeys(fields) && PlainKeys(c, fields)
  {
  }

  lemma FiveShown(c: Cleaner, i: string, s: Json, j: string, t: Json, k: string, u: Json, x: Json, l: string, v: Json,
                  m: string, w: Json)
    requires TwoMoreNames(c, i, j, k, l, m)
    requires Clean(c, s) == s && Clean(c, t) == t && Clean(c, u) == x && Clean(c, v) == v && Clean(c, w) == w
    ensures Clean(c, Obj([(i, s), (j, t), (k, u), (l, v), (m, w)])) == Obj([(i, s), (j, t), (k, x), (l, v), (m, w)])
  {
    var fields, shown := [(i, s), (j, t), (k, u), (l, v), (m, w)], [(i, s), (j, t), (k, x), (l, v), (m, w)];
    FiveNames(c, i, s, j, t, k, u, l, v, m, w);
    assert CleanedInPlace(c, fields, shown);
    PlainObjectStays(c, fields, shown);
  }

  lemma BlockedNames(c: Cleaner, x: string, id: string)
    requires TreatsFrames(c, x, id)
    ensures TwoMoreNames(c, "role", "content", "tool_call_id", "input_preview", "slot")
  {
  }

  lemma BlockedShown(c: Cleaner, x: string, id: string)
    requires TreatsFrames(c, x, id)
    ensures Clean(c, BlockedData(x)) == BlockedData(id)
  {
    InputShown(c, x, id);
    TextShown(c, x, id);
    TextShown(c, "tool", "tool");
    TextShown(c, "s", "s");
    var content := BLOCK_SIGN + BLOCK_TEXT;
    TextShown(c, content, content);
    BlockedNames(c, x, id);
    FiveShown(c, "role", Str("tool"), "content", Str(content), "tool_call_id", Str(x), Str(id),
              "input_preview", SAMPLE_INPUT, "slot", Str("s"));
  }

  lemma NativeShows(n: Settings, known: set<string>, data: Json, shown: Json)
    requires Clean(CleanerAt(n, known), data) == shown
    ensures Native(n).clean(known, data) == shown
  {
  }

  lemma FramesShown(n: Settings, known: set<string>, x: string, id: string)
    requires TreatsFrames(CleanerAt(n, known), x, id)
    ensures ShowsFrames(Native(n), known, x, id)
  {
    var c := CleanerAt(n, known);
    CardShown(c, x, id);
    NativeShows(n, known, CardData(x), CardData(id));
    CallShown(c, x, id);
    NativeShows(n, known, CallData(x), CallData(id));
    ResultShown(c, x, id);
    NativeShows(n, known, ResultData(x), ResultData(id));
    DoneShown(c, x, id);
    NativeShows(n, known, DONE_DATA, DONE_DATA);
    BlockedShown(c, x, id);
    NativeShows(n, known, BlockedData(x), BlockedData(id));
  }

  lemma SettingsPlaySample(n: Settings, a: string, b: string, id: string)
    requires SampleSettings(n, a, b, id)
    ensures PlaysSample(Native(n), a)
  {
  }

  lemma SettingsShowFrames(n: Settings, a: string, b: string, id: string, known: set<string>)
    requires SampleSettings(n, a, b, id)
    ensures ShowsFrames(Native(n), known, a, id) && ShowsFrames(Native(n), known, b, id)
  {
    assert TreatsFrames(CleanerAt(n, known), a, id) && TreatsFrames(CleanerAt(n, known), b, id);
    FramesShown(n, known, a, id);
    FramesShown(n, known, b, id);
  }

  lemma SettingsShowSample(n: Settings, a: string, b: string, id: string)
    requires SampleSettings(n, a, b, id)
    ensures PlaysSample(Native(n), a) && ShowsSample(Native(n), a, b, id)
  {
    SettingsPlaySample(n, a, b, id);
    SettingsShowFrames(n, a, b, id, {});
    SettingsShowFrames(n, a, b, id, {"q"});
  }

  lemma ThreeKeys(k: string, v: Json, l: string, w: Json, m: string, x: Json)
    requires k != l && k != m && l != m
    ensures UniqueKeys([(k, v), (l, w), (m, x)])
    ensures UniqueThroughout(v) && UniqueThroughout(w) && UniqueThroughout(x) ==>
      UniqueThroughout(Obj([(k, v), (l, w), (m, x)]))
  {
  }

  // ----- the frames of an approved turn

  /** What the runner reads of the card's frame. */
  predicate IsCardFrame(c: Config, f: Frame) {
    var meta := PermissionMeta(c.codec, f.data);
    && f.kind == ChatMessage && Field(f.data, "slot") == Str("s") && Field(f.data, "role") == Str("permission")
    && Field(meta, "request_id") == Str("q") && Field(meta, "resolved") == Null
    && Hashable(Field(meta, "tool_call_id")) && Field(meta, "tool_input") == SAMPLE_INPUT
    && Includes(c.codec.dump(f.data), "t")
  }

  predicate IsCallFrame(f: Frame, x: string) {
    f.kind == ToolCall && Field(f.data, "slot") == Str("s") && Field(f.data, "tool_call_id") == Str(x)
  }

  predicate IsOtherFrame(f: Frame, kind: Kind) { f.kind == kind && Field(f.data, "slot") == Str("s") }

  predicate IsShown(c: Config, f: Frame, shown: Json) { c.clean({"q"}, f.data) == shown }

  lemma CardUnique(id: string)
    ensures UniqueThroughout(CardData(id))
  {
    assert UniqueThroughout(SAMPLE_INPUT);
    ThreeKeys("tool_call_id", Str(id), "tool_input", SAMPLE_INPUT, "request_id", Str("q"));
    ThreeKeys("meta", MetaData(id), "role", Str("permission"), "slot", Str("s"));
  }

  lemma CardFrame(c: Config, a: string, b: string, id: string) returns (f: Frame)
    requires PlaysSample(c, a) && ShowsSample(c, a, b, id)
    ensures IsCardFrame(c, f) && IsShown(c, f, CardData(id))
  {
    FrameFields(a);
    MetaFields(a);
    LookupAt(CardData(a).fields, "slot", 2);
    CardUnique(a);
    f := Frame(ChatMessage, CardData(a));
  }

  lemma CallFrame(c: Config, a: string, b: string, id: string, x: string) returns (f: Frame)
    requires PlaysSample(c, a) && ShowsSample(c, a, b, id) && (x == a || x == b)
    ensures IsCallFrame(f, x) && IsShown(c, f, CallData(id))
  {
    FrameFields(x);
    LookupAt(CallData(x).fields, "slot", 2);
    assert UniqueThroughout(SAMPLE_INPUT);
    ThreeKeys("tool_call_id", Str(x), "input_preview", SAMPLE_INPUT, "slot", Str("s"));
    f := Frame(ToolCall, CallData(x));
  }

  lemma OtherFrames(c: Config, a: string, b: string, id: string) returns (result: Frame, done: Frame)
    requires PlaysSample(c, a) && ShowsSample(c, a, b, id)
    ensures IsOtherFrame(result, ToolResult) && IsShown(c, result, ResultData(id))
    ensures IsOtherFrame(done, ChatDone) && IsShown(c, done, DONE_DATA)
  {
    LookupAt(ResultData(a).fields, "slot", 2);
    ThreeKeys("tool_call_id", Str(a), "output", Str("o"), "slot", Str("s"));
    result, done := Frame(ToolResult, ResultData(a)), Frame(ChatDone, DONE_DATA);
  }

  // ----- an approved turn

  /** A card, two calls, a result, and the end. */
  predicate SampleFrames(c: Config, turn: Turn, a: string, b: string) {
    && turn.Honest? && IsCardFrame(c, turn.f)
    && |turn.frames| == 3 && IsCallFrame(turn.frames[0], a) && IsCallFrame(turn.frames[1], b)
    && IsOtherFrame(turn.frames[2], ToolResult) && IsOtherFrame(turn.last, ChatDone) && turn.sel == [SAMPLE_SEL]
  }

  /** With what is shown of each. */
  predicate IsSampleTurn(c: Config, turn: Turn, a: string, b: string, id: string) {
    && SampleFrames(c, turn, a, b) && turn.held == Held(SampleCard(id), turn.f.data, {"q"})
    && IsShown(c, turn.f, CardData(id)) && IsShown(c, turn.frames[0], CallData(id))
    && IsShown(c, turn.frames[1], CallData(id)) && IsShown(c, turn.frames[2], ResultData(id))
    && IsShown(c, turn.last, DONE_DATA)
  }

  lemma SampleTurn(c: Config, a: string, b: string, id: string) returns (turn: Turn)
    requires PlaysSample(c, a) && ShowsSample(c, a, b, id)
    ensures IsSampleTurn(c, turn, a, b, id)
  {
    var card := CardFrame(c, a, b, id);
    var call := CallFrame(c, a, b, id, a);
    var other := CallFrame(c, a, b, id, b);
    var result, done := OtherFrames(c, a, b, id);
    turn := Honest(card, Held(SampleCard(id), card.data, {"q"}), [call, other, result], done, [SAMPLE_SEL]);
  }

  lemma SampleLearned(c: Config, f: Frame)
    requires c.codec.str(Str("q")) == "q" && IsCardFrame(c, f)
    ensures Learned(c, {}, f) == {"q"}
  {
  }

  lemma SampleJudged(c: Config, f: Frame, running: bool)
    requires c.codec.str(Str("q")) == "q" && IsCardFrame(c, f)
    ensures
      var card := MakeCard(c, SAMPLE_PHASE, f.data, map[], {"q"});
      Judge(c, SAMPLE_PHASE, f, map[], {"q"}, running) == Offer(Held(card, f.data, {"q"}))
  {
  }

  lemma SampleCardMade(c: Config, f: Frame, id: string)
    requires c.slot == "s" && c.codec.str(Str("q")) == "q" && !c.hides({"q"}, SAMPLE_INPUT)
    requires IsCardFrame(c, f) && IsShown(c, f, CardData(id))
    ensures MakeCard(c, SAMPLE_PHASE, f.data, map[], {"q"}) == SampleCard(id)
  {
  }

  lemma SampleCardOpens(c: Config, f: Frame, id: string)
    requires c.slot == "s" && IsCardFrame(c, f)
    ensures Ours(c, f) && Starts(c, SAMPLE_PHASE, f)
    ensures !SampleCard(id).body.redacted && SampleCard(id).body.argumentsMatch
  {
  }

  lemma SampleOffered(c: Config, f: Frame, a: string, b: string, id: string)
    requires PlaysSample(c, a) && ShowsSample(c, a, b, id) && IsCardFrame(c, f) && IsShown(c, f, CardData(id))
    ensures HonestOffer(c, SAMPLE_PHASE, {}, f, Held(SampleCard(id), f.data, {"q"}))
  {
    SampleLearned(c, f);
    SampleJudged(c, f, true);
    SampleCardMade(c, f, id);
    SampleCardOpens(c, f, id);
  }

  lemma CallIsHarmless(c: Config, f: Frame, x: string)
    requires c.slot == "s" && IsCallFrame(f, x)
    ensures Harmless(c, f)
  {
  }

  lemma OtherIsOurs(c: Config, f: Frame, kind: Kind)
    requires c.slot == "s" && IsOtherFrame(f, kind) && (kind == ToolResult || kind == ChatDone)
    ensures Ours(c, f) && (kind == ToolResult ==> Harmless(c, f))
  {
  }

  lemma SampleFits(c: Config, turn: Turn, a: string, b: string)
    requires c.slot == "s" && SampleFrames(c, turn, a, b) && HonestOffer(c, SAMPLE_PHASE, {}, turn.f, turn.held)
    ensures Fits(c, SAMPLE_PHASE, {}, turn)
  {
    CallIsHarmless(c, turn.frames[0], a);
    CallIsHarmless(c, turn.frames[1], b);
    OtherIsOurs(c, turn.frames[2], ToolResult);
    OtherIsOurs(c, turn.last, ChatDone);
  }

  /** The row shows these two calls as they arrived. */
  predicate ShowsCalls(row: Row, a: string, b: string) {
    && |row.events| == 5 && row.events[1].kind == ToolCall && row.events[2].kind == ToolCall
    && Field(row.events[1].raw, "tool_call_id") == Str(a) && Field(row.events[2].raw, "tool_call_id") == Str(b)
  }

  lemma SampleRowFiled(c: Config, turn: Turn, a: string, b: string, id: string)
    requires c.codec.str(Str("q")) == "q" && IsSampleTurn(c, turn, a, b, id)
    ensures
      var row := RowOf(c, SAMPLE_PHASE, {}, turn);
      IsSampleRow(row, id) && ShowsCalls(row, a, b)
  {
    SampleLearned(c, turn.f);
    var frames := [turn.f] + turn.frames + [turn.last];
    assert frames == [turn.f, turn.frames[0], turn.frames[1], turn.frames[2], turn.last];
  }

  /** A run of one turn. */
  function OneTurn(turn: Turn): seq<Action> { PlanActions([turn], 0) }

  /** A run of a single phase files that phase's row. */
  lemma OneTurnRun(c: Config, turn: Turn)
    requires |c.phases| == 1 && Fits(c, c.phases[0], {}, turn)
    ensures
      var s := Run(c, OneTurn(turn));
      s.done == [RowOf(c, c.phases[0], {}, turn)] && !s.strays
  {
    var turns := [turn];
    assert turns[1..] == [];
    assert PlanFits(c, 1, Learned(c, {}, turn.f), turns[1..]);
    PlanUnfolds(c, 0, {}, turns);
    WholeRunFinishes(c, turns);
    var row := RowOf(c, c.phases[0], {}, turn);
    assert INITIAL.done + ([row] + []) == [row];
  }

  function SampleReceipt(rows: seq<Row>): Receipt {
    Receipt(SAMPLE_BEFORE, SAMPLE_BEFORE, [SampleService(Str("i"))], true, rows, Null, [])
  }

  lemma SampleRowPasses(r: Reader, rows: seq<Row>, id: string)
    requires |rows| == 1 && IsSampleRow(rows[0], id) && id != "" && ReadsSample(r, Str("i"))
    ensures RowPasses(r, SampleReceipt(rows), 0, "")
  {
    SampleJournal(Str("i"));
    SampleIsReadable(r, rows[0], id, Str("i"));
    SampleChain(r, rows[0], id, Str("i"));
  }

  lemma ApprovedTurnPasses(c: Config, r: Reader, a: string, b: string, id: string) returns (actions: seq<Action>)
    requires PlaysSample(c, a) && ShowsSample(c, a, b, id) && ReadsSample(r, Str("i")) && c.phases == [SAMPLE_PHASE]
    ensures
      var s := Run(c, actions);
      && !s.strays && |s.done| == 1 && s.done[0].phase.name != CrewPhase
      && RowPasses(r, SampleReceipt(s.done), 0, "") && ShowsCalls(s.done[0], a, b)
  {
    var turn := SampleTurn(c, a, b, id);
    actions := OneTurn(turn);
    SampleOffered(c, turn.f, a, b, id);
    SampleFits(c, turn, a, b);
    OneTurnRun(c, turn);
    SampleRowFiled(c, turn, a, b, id);
    SampleRowPasses(r, Run(c, actions).done, id);
  }

  /** Some run meets everything `NativeRun.EvidencedApproval` asks for. */
  lemma ApprovedRunPasses(n: Settings, r: Reader, a: string, b: string, id: string) returns (actions: seq<Action>)
    requires SampleSettings(n, a, b, id) && ReadsSample(r, Str("i")) && n.phases == [SAMPLE_PHASE]
    ensures
      var s := Run(Native(n), actions);
      && !s.strays && |s.done| == 1 && s.done[0].phase.name != CrewPhase
      && RowPasses(r, SampleReceipt(s.done), 0, "") && ShowsCalls(s.done[0], a, b)
  {
    SettingsShowSample(n, a, b, id);
    actions := ApprovedTurnPasses(Native(n), r, a, b, id);
  }

  lemma TwoCallsShown(row: Row, a: string, b: string)
    requires ShowsCalls(row, a, b) && a != b && a != "" && b != ""
    ensures !exists rawId :: SoleRawCall(row, rawId)
  {
    assert IsRawCall(row.events[1]) && RawCallId(row.events[1]) == Str(a);
    assert IsRawCall(row.events[2]) && RawCallId(row.events[2]) == Str(b);
  }

  /** Two different calls whose identifiers are shown alike pass as one. */
  lemma TwoRawCallsPass(n: Settings, r: Reader, a: string, b: string, id: string) returns (actions: seq<Action>)
    requires SampleSettings(n, a, b, id) && ReadsSample(r, Str("i")) && n.phases == [SAMPLE_PHASE]
    requires a != b && a != "" && b != ""
    ensures
      var s := Run(Native(n), actions);
      && |s.done| == 1 && RowPasses(r, SampleReceipt(s.done), 0, "")
      && !exists rawId :: SoleRawCall(s.done[0], rawId)
  {
    actions := ApprovedRunPasses(n, r, a, b, id);
    TwoCallsShown(Run(Native(n), actions).done[0], a, b);
  }

  // ----- a denied turn

  const CREW_PHASE := Phase(CrewPhase, "crew_denied", "t", "")

  const DENIAL := Obj([("event_type", Str("tool_invocation")), ("outcome", Str("denied")), ("error", Str("hook_deny")),
                       ("request_id", Str("q"))])

  const NOTHING_LOGGED := Receipt(SAMPLE_BEFORE, SAMPLE_BEFORE, [], true, [], Null, [])

  lemma BlockedUnique(id: string)
    ensures UniqueThroughout(BlockedData(id))
  {
    assert UniqueThroughout(SAMPLE_INPUT);
  }

  lemma BlockedFields(id: string)
    ensures Field(BlockedData(id), "role") == Str("tool") && Field(BlockedData(id), "tool_call_id") == Str(id)
    ensures Field(BlockedData(id), "slot") == Str("s")
    ensures Lookup(BlockedData(id).fields, "input_preview") == Some(SAMPLE_INPUT)
    ensures Lookup(BlockedData(id).fields, "content") == Some(Str(BLOCK_SIGN + BLOCK_TEXT))
  {
    LookupAt(BlockedData(id).fields, "content", 1);
    LookupAt(BlockedData(id).fields, "tool_call_id", 2);
    LookupAt(BlockedData(id).fields, "input_preview", 3);
    LookupAt(BlockedData(id).fields, "slot", 4);
  }

  lemma DenialIsDenial()
    ensures Where([DENIAL], IsDenial) == [DENIAL]
  {
    LookupAt(DENIAL.fields, "outcome", 1);
    LookupAt(DENIAL.fields, "error", 2);
    LookupAt(DENIAL.fields, "request_id", 3);
    WhereOne(DENIAL, IsDenial);
  }

  function ObjectFields(v: Json): seq<(string, Json)> { if v.Obj? then v.fields else [] }

  /** The call's frame shows that call, blocked, with exactly the fixed argument. */
  predicate ShowsBlocked(shown: Json, id: string) {
    && Field(shown, "role") == Str("tool") && Field(shown, "tool_call_id") == Str(id)
    && Lookup(ObjectFields(shown), "input_preview") == Some(SAMPLE_INPUT)
    && Lookup(ObjectFields(shown), "content") == Some(Str(BLOCK_SIGN + BLOCK_TEXT))
  }

  lemma BlockedFrame(c: Config, a: string, b: string, id: string) returns (f: Frame)
    requires PlaysSample(c, a) && ShowsSample(c, a, b, id)
    ensures f.kind == ChatMessage && Field(f.data, "slot") == Str("s") && Field(f.data, "role") == Str("tool")
    ensures Includes(c.codec.dump(f.data), "t") && ShowsBlocked(c.clean({}, f.data), id)
  {
    BlockedUnique(a);
    BlockedFields(a);
    BlockedFields(id);
    f := Frame(ChatMessage, BlockedData(a));
  }

  /** One call, shown blocked, and the end of the turn. */
  predicate IsDeniedRow(row: Row, id: string) {
    && row.phase == CREW_PHASE && row.approvals == [] && row.sel == [DENIAL] && |row.events| == 2
    && row.events[0].kind == ChatMessage && ShowsBlocked(row.events[0].data, id) && row.events[1].kind == ChatDone
  }

  lemma DeniedIsBlocked(row: Row, id: string)
    requires IsDeniedRow(row, id)
    ensures IsBlocked(row.events[0])
  {
    var content := BLOCK_SIGN + BLOCK_TEXT;
    assert content[|BLOCK_SIGN|..] == BLOCK_TEXT;
    assert Includes(content, BLOCK_TEXT);
  }

  lemma DeniedShowsCall(r: Reader, row: Row, id: string)
    requires IsDeniedRow(row, id) && id != ""
    ensures IsCall(row.events[0]) && CarriesTrace(r, row.events[0], "t") && CallId(row.events[0]) == Str(id)
    ensures !IsToolRow(row.events[1])
  {
  }

  lemma DeniedIsSole(r: Reader, row: Row, id: string)
    requires IsDeniedRow(row, id) && id != ""
    ensures SoleCall(r, row, Str(id))
  {
    DeniedShowsCall(r, row, id);
  }

  lemma DeniedIsReadable(r: Reader, row: Row, id: string)
    requires IsDeniedRow(row, id) && id != ""
    ensures Readable(r, row, [])
  {
    DeniedShowsCall(r, row, id);
  }

  lemma DeniedCall(r: Reader, row: Row, id: string)
    requires IsDeniedRow(row, id) && id != ""
    ensures BlockedCall(r, row, Str(id))
  {
    DeniedIsBlocked(row, id);
    DeniedShowsCall(r, row, id);
  }

  lemma DeniedRowPasses(r: Reader, rows: seq<Row>, id: string)
    requires |rows| == 1 && IsDeniedRow(rows[0], id) && id != ""
    ensures RowPasses(r, NOTHING_LOGGED.(rows := rows), 0, "")
  {
    DeniedIsSole(r, rows[0], id);
    DeniedCall(r, rows[0], id);
    DeniedIsReadable(r, rows[0], id);
    DenialIsDenial();
    assert TraceEvents([], "t") == [];
    assert CrewChain(r, rows[0], [], Str(id));
  }

  predicate IsDeniedTurn(c: Config, turn: Turn) {
    && turn.Uneventful? && turn.frames == [] && turn.sel == [DENIAL] && IsOtherFrame(turn.last, ChatDone)
    && turn.f.kind == ChatMessage && Field(turn.f.data, "slot") == Str("s") && Field(turn.f.data, "role") == Str("tool")
    && Includes(c.codec.dump(turn.f.data), "t")
  }

  lemma DeniedFits(c: Config, turn: Turn)
    requires c.slot == "s" && IsDeniedTurn(c, turn)
    ensures Fits(c, CREW_PHASE, {}, turn)
  {
  }

  lemma DeniedRowFiled(c: Config, turn: Turn, id: string)
    requires IsDeniedTurn(c, turn) && ShowsBlocked(c.clean({}, turn.f.data), id)
    ensures IsDeniedRow(RowOf(c, CREW_PHASE, {}, turn), id)
  {
    assert [turn.f] + turn.frames + [turn.last] == [turn.f, turn.last];
  }

  lemma DeniedTurnPasses(c: Config, r: Reader, a: string, b: string, id: string) returns (actions: seq<Action>)
    requires PlaysSample(c, a) && ShowsSample(c, a, b, id) && c.phases == [CREW_PHASE]
    ensures
      var s := Run(c, actions);
      && |s.done| == 1 && s.done[0].phase.name == CrewPhase
      && RowPasses(r, NOTHING_LOGGED.(rows := s.done), 0, "")
  {
    var blocked := BlockedFrame(c, a, b, id);
    var result, done := OtherFrames(c, a, b, id);
    var turn := Uneventful(blocked, [], done, [DENIAL]);
    actions := OneTurn(turn);
    DeniedFits(c, turn);
    OneTurnRun(c, turn);
    DeniedRowFiled(c, turn, id);
    DeniedRowPasses(r, Run(c, actions).done, id);
  }

  /** Some run meets everything `NativeRun.EvidencedCrewDenial` asks for. */
  lemma DeniedRunPasses(n: Settings, r: Reader, a: string, b: string, id: string) returns (actions: seq<Action>)
    requires SampleSettings(n, a, b, id) && n.phases == [CREW_PHASE]
    ensures
      var s := Run(Native(n), actions);
      && |s.done| == 1 && s.done[0].phase.name == CrewPhase
      && RowPasses(r, NOTHING_LOGGED.(rows := s.done), 0, "")
  {
    SettingsShowSample(n, a, b, id);
    actions := DeniedTurnPasses(Native(n), r, a, b, id);
  }
}
