/**
A sanitizer that shows two identifiers as one and changes nothing else: with it the sample turn passes
with two calls, so what is false of the checks is false of settings that meet every assumption.
*/
module SampleSanitizer {
  import opened JsonValues
  import opened NativeRecords
  import opened Sanitizer
  import opened SpelledText
  import opened ApprovalProtocol
  import opened NativeSettings
  import opened Evidence
  import opened EvidenceSample
  import opened RawCalls
  import opened NativeExample

  function Merge(s: string): string { if s == "a" || s == "b" then "c" else s }

  function Print(v: Json): string { if v.Str? then v.s else "" }

  /** A library that spells and reads back, and a sanitizer that only merges. */
  ghost predicate Merges(c: Cleaner) {
    && (forall s :: c.text(s) == Merge(s)) && (forall s :: !c.sensitive(s))
    && (forall v :: c.codec.str(v) == Print(v)) && (forall v :: c.codec.dump(v) == Spell(v))
    && (forall s :: IsNested(c, s) ==> |s| > 1 && (s[0] == 'o' || s[0] == 'a'))
  }

  lemma SpelledStart(v: Json)
    requires v.Obj? || v.Arr?
    ensures Spell(v) != "" && (Spell(v)[0] == 'o' || Spell(v)[0] == 'a')
  {
  }

  lemma MergeKeepsKey(c: Cleaner, key: string)
    requires Merges(c) && |key| > 1
    ensures KeepsKey(c, key) && PlainKey(c, key)
  {
  }

  lemma MergeKeepsWord(c: Cleaner, word: string)
    requires Merges(c) && |word| > 1 && word[0] != 'o' && word[0] != 'a'
    ensures KeepsWord(c, word) && ShowsText(c, word, word)
  {
    forall v: Json | v.Obj? || v.Arr?
      ensures c.codec.dump(v) != word
    {
      SpelledStart(v);
    }
  }

  lemma MergeShowsLetter(c: Cleaner, x: string)
    requires Merges(c) && |x| == 1
    ensures ShowsText(c, x, Merge(x))
  {
  }

  lemma MergeKeepsSubstance(c: Cleaner)
    requires Merges(c)
    ensures KeepsSubstance(c)
  {
    forall v: Json | v.Obj? || v.Arr?
      ensures c.codec.dump(v) != ""
    {
      SpelledStart(v);
    }
  }

  lemma MergeKeepsFrames(c: Cleaner)
    requires Merges(c)
    ensures KeepsFramesAt(c)
  {
    MergeKeepsKey(c, "tool_call_id");
    MergeKeepsKey(c, "meta");
    MergeKeepsKey(c, "cls");
    MergeKeepsKey(c, "role");
    MergeKeepsWord(c, "tool");
    MergeKeepsSubstance(c);
  }

  lemma MergeKeepsTrace(c: Cleaner)
    requires Merges(c)
    ensures KeepsTraceAt(c, "t")
  {
    MergeKeepsKey(c, "input_preview");
    MergeKeepsKey(c, "trace_id");
    MergeShowsLetter(c, "t");
    TextShown(c, "t", "t");
  }

  lemma MergePlainNames(c: Cleaner)
    requires Merges(c)
    ensures PlainNames(c)
  {
    MergeKeepsKey(c, "meta");
    MergeKeepsKey(c, "role");
    MergeKeepsKey(c, "slot");
    MergeKeepsKey(c, "tool_call_id");
    MergeKeepsKey(c, "tool_input");
    MergeKeepsKey(c, "request_id");
    MergeKeepsKey(c, "input_preview");
    MergeKeepsKey(c, "output");
    MergeKeepsKey(c, "content");
    MergeKeepsKey(c, "trace_id");
  }

  lemma MergePlainWords(c: Cleaner)
    requires Merges(c)
    ensures PlainWords(c)
  {
    MergeShowsLetter(c, "t");
    MergeShowsLetter(c, "q");
    MergeShowsLetter(c, "s");
    MergeShowsLetter(c, "o");
    MergeKeepsWord(c, "permission");
    MergeKeepsWord(c, "tool");
    var content := BLOCK_SIGN + BLOCK_TEXT;
    assert content[0] == BLOCK_SIGN[0];
    MergeKeepsWord(c, content);
  }

  lemma MergeTreats(c: Cleaner)
    requires Merges(c)
    ensures TreatsFrames(c, "a", "c") && TreatsFrames(c, "b", "c")
  {
    MergePlainNames(c);
    MergePlainWords(c);
    MergeShowsLetter(c, "a");
    MergeShowsLetter(c, "b");
  }

  // ----- the frames as text

  lemma IncludesPart(s: string, a: string, part: string, b: string)
    requires s == a + part + b
    ensures Includes(s, part)
  {
    assert s[|a|..] == part + b;
  }

  lemma IncludesLater(s: string, a: string, t: string, part: string)
    requires s == a + t && Includes(t, part)
    ensures Includes(s, part)
  {
    var i :| 0 <= i <= |t| && part <= t[i..];
    assert s[|a| + i..] == t[i..];
  }

  lemma IncludesBefore(s: string, t: string, part: string)
    requires Includes(s, part)
    ensures Includes(s + t, part)
  {
    var i :| 0 <= i <= |s| && part <= s[i..];
    assert (s + t)[i..] == s[i..] + t;
  }

  /** The first field's name and value are part of an object's text. */
  lemma FirstIsSpelled(v: Json, part: string)
    requires v.Obj? && v.fields != []
    requires Includes(v.fields[0].0, part) || Includes(Spell(v.fields[0].1), part)
    ensures Includes(Spell(v), part)
  {
    var field := v.fields[0];
    var name, value, rest := field.0, Spell(field.1), SpellFields(v.fields[1..]);
    var start := "o" + "," + Strokes(|name|);
    assert Spell(v) == start + (name + (value + rest));
    if Includes(name, part) {
      IncludesBefore(name, value + rest, part);
    } else {
      IncludesBefore(value, rest, part);
      IncludesLater(name + (value + rest), name, value + rest, part);
    }
    IncludesLater(Spell(v), start, name + (value + rest), part);
  }

  lemma CardMentionsTrace()
    ensures Includes(Spell(CardData("a")), "t")
  {
    IncludesPart("meta", "me", "t", "a");
    FirstIsSpelled(CardData("a"), "t");
  }

  lemma BlockedMentionsTrace()
    ensures Includes(Spell(BlockedData("a")), "t")
  {
    IncludesPart("tool", "", "t", "ool");
    IncludesLater(SpellText("tool"), Strokes(4), "tool", "t");
    IncludesLater(Spell(Str("tool")), "s", SpellText("tool"), "t");
    FirstIsSpelled(BlockedData("a"), "t");
  }

  // ----- settings and a run

  ghost predicate MergingSettings(n: Settings) {
    && n.slot == "s" && n.phases == [SAMPLE_PHASE] && (forall s :: n.upper(s) == s)
    && forall known: set<string> :: Merges(CleanerAt(n, known))
  }

  lemma MergingSettingsExist() returns (n: Settings)
    ensures MergingSettings(n) && ReadsDumps(n.codec)
  {
    var c := LibraryExists(s => Merge(s), (_: string) => false, v => Print(v));
    forall s | IsNested(c, s)
      ensures |s| > 1 && (s[0] == 'o' || s[0] == 'a')
    {
      NestedStarts(s);
    }
    assert Merges(c);
    n := Settings(c.codec, (_: set<string>, s: string) => Merge(s), c.sensitive, s => s, "s", [SAMPLE_PHASE]);
    forall known: set<string>
      ensures Merges(CleanerAt(n, known))
    {
      assert forall s :: IsNested(CleanerAt(n, known), s) <==> IsNested(c, s);
    }
  }

  lemma MergingIsHonest(n: Settings)
    requires MergingSettings(n)
    ensures n.codec.str(Str("q")) == "q" && !Hidden(n, {"q"}, SAMPLE_INPUT)
  {
    var c := CleanerAt(n, {"q"});
    assert Merges(c);
    assert c.codec.str(Str("q")) == Print(Str("q")) && n.codec.str(SAMPLE_INPUT) == "" && c.text("") == "";
  }

  lemma MergingKeeps(n: Settings)
    requires MergingSettings(n)
    ensures KeepsFrames(n) && KeepsTrace(n, "t")
  {
    forall known: set<string>
      ensures KeepsFramesAt(CleanerAt(n, known)) && KeepsTraceAt(CleanerAt(n, known), "t")
    {
      MergeKeepsFrames(CleanerAt(n, known));
      MergeKeepsTrace(CleanerAt(n, known));
    }
  }

  lemma MergingIsSample(n: Settings)
    requires MergingSettings(n)
    ensures SampleSettings(n, "a", "b", "c")
  {
    MergingIsHonest(n);
    MergingKeeps(n);
    CardMentionsTrace();
    BlockedMentionsTrace();
    assert Merges(CleanerAt(n, {}));
    forall known: set<string>
      ensures TreatsFrames(CleanerAt(n, known), "a", "c") && TreatsFrames(CleanerAt(n, known), "b", "c")
    {
      MergeTreats(CleanerAt(n, known));
    }
  }

  lemma MergingIsAmbiguous(n: Settings)
    requires MergingSettings(n)
    ensures !Unambiguous(n, Str("c"))
  {
    var c := CleanerAt(n, {});
    assert Merges(c);
    MergeShowsLetter(c, "a");
    MergeShowsLetter(c, "b");
    var x: Value, y: Value := Str("a"), Str("b");
    assert Cleaned(n, {}, x) == Str("c") && Cleaned(n, {}, y) == Str("c");
  }

  /** Settings that meet every assumption made of cleaning, and a run under them that passes with two calls. */
  lemma TwoRawCallsHappen() returns (n: Settings, r: Reader, actions: seq<Action>)
    ensures KeepsFrames(n) && KeepsTrace(n, "t") && ReadsDumps(n.codec) && r.codec == n.codec
    ensures !Unambiguous(n, Str("c"))
    ensures
      var s := Run(Native(n), actions);
      && |s.done| == 1 && RowPasses(r, SampleReceipt(s.done), 0, "")
      && !exists rawId :: SoleRawCall(s.done[0], rawId)
  {
    n := MergingSettingsExist();
    MergingKeeps(n);
    MergingIsSample(n);
    MergingIsAmbiguous(n);
    MergingIsHonest(n);
    r := Reader(n.codec, (_: string) => [SamplePayload(Str("i"))], (path: string) => path);
    actions := TwoRawCallsPass(n, r, "a", "b", "c");
  }
}
