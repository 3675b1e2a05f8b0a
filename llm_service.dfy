/** The advice provider: the prompt sent to the text-generation backend, the
    parser that turns its free-text reply into a list of recommendations,
    the fixed fallback list, and the choice between the two providers. */
module LlmService {
  import opened Wrappers
  import opened Seqs
  import opened Text
  import opened Models

  // ================================================================ prompt

  const Instruction: string :=
    "You are an energy efficiency advisor. " + "Based on the following home profile, "
    + "provide actionable, prioritized " + "energy-saving recommendations."

  const FormatRule: string :=
    "Respond with a numbered list " + "of recommendations only, " + "one per line. " + "No preamble or conclusion."

  const ProfileHeading: string := "Home profile:"

  const Unknown: string := "Unknown"

  /** `home.year_built or 'Unknown'`: a missing year, and also the falsy
      year 0, print as "Unknown". */
  function YearText(home: Home): string
  {
    if home.yearBuilt.None? || home.yearBuilt.value == 0 then Unknown else IntToString(home.yearBuilt.value)
  }

  /** `home.insulation.value if home.insulation else 'Unknown'`. */
  function InsulationText(home: Home): string
  {
    if home.insulation.None? then Unknown else InsulationValue(home.insulation.value)
  }

  /** `if home.notes:`: notes count only when present and not empty. */
  predicate HasNotes(home: Home)
  {
    home.notes.Some? && home.notes.value != ""
  }

  function SizeLine(home: Home): string
  {
    "- Size: " + IntToString(home.sizeSqm) + " m\U{00B2}"
  }

  function YearLine(home: Home): string
  {
    "- Year built: " + YearText(home)
  }

  function HeatingLine(home: Home): string
  {
    "- Heating: " + HeatingTypeValue(home.heatingType)
  }

  function InsulationLine(home: Home): string
  {
    "- Insulation: " + InsulationText(home)
  }

  function NotesLine(notes: string): string
  {
    "- Notes: " + notes
  }

  /** The initial `parts` list of `_build_prompt`. */
  function ProfileLines(home: Home): seq<string>
  {
    [Instruction, FormatRule, "", ProfileHeading, SizeLine(home), YearLine(home), HeatingLine(home), InsulationLine(home)]
  }

  /** The lines of the prompt: the profile lines, then the notes line when
      there are notes. */
  function PromptLines(home: Home): seq<string>
  {
    ProfileLines(home) + (if HasNotes(home) then [NotesLine(home.notes.value)] else [])
  }

  /** The prompt text: its lines joined with "\n". */
  function Prompt(home: Home): string
  {
    Join(PromptLines(home), "\n")
  }

  /** `_build_prompt`: start from the profile lines, append the notes line
      if there are notes, and join. */
  method BuildPrompt(home: Home) returns (prompt: string)
    ensures prompt == Prompt(home)
  {
    var parts := ProfileLines(home);
    if home.notes.Some? && home.notes.value != "" {
      parts := parts + [NotesLine(home.notes.value)];
    } else {
      assert parts == PromptLines(home);
    }
    prompt := Join(parts, "\n");
  }

  /** The year line says "Unknown" exactly when the year is missing (or 0). */
  lemma PromptYearUnknown(home: Home)
    ensures |PromptLines(home)| >= 8
    ensures PromptLines(home)[5] == "- Year built: Unknown" <==> home.yearBuilt.None? || home.yearBuilt.value == 0
  {
    var line := PromptLines(home)[5];
    if home.yearBuilt.Some? && home.yearBuilt.value != 0 {
      var digits := IntToString(home.yearBuilt.value);
      assert line[14] == digits[0];
      assert ("- Year built: Unknown")[14] == 'U';
    }
  }

  /** No insulation level has the value "Unknown". */
  lemma InsulationValueIsKnown(l: InsulationLevel)
    ensures InsulationValue(l) != Unknown
  {
    assert InsulationValue(l)[0] != 'U';
  }

  /** Two lines with the same label are equal exactly when their values are. */
  lemma SameLabel(tag: string, x: string, y: string)
    ensures tag + x == tag + y <==> x == y
  {
    if tag + x == tag + y {
      assert (tag + x)[|tag|..] == x;
      assert (tag + y)[|tag|..] == y;
    }
  }

  /** The insulation line says "Unknown" exactly when no level is recorded. */
  lemma PromptInsulationUnknown(home: Home)
    ensures |PromptLines(home)| >= 8
    ensures PromptLines(home)[7] == "- Insulation: Unknown" <==> home.insulation.None?
  {
    assert PromptLines(home)[7] == InsulationLine(home);
    SameLabel("- Insulation: ", InsulationText(home), Unknown);
    if home.insulation.Some? {
      InsulationValueIsKnown(home.insulation.value);
    }
  }

  /** A "- Notes: " line is present exactly when there are non-empty notes,
      and then it is the last line and carries the notes verbatim. */
  lemma PromptNotesLine(home: Home)
    ensures (exists k :: 0 <= k < |PromptLines(home)| && "- Notes: " <= PromptLines(home)[k]) <==> HasNotes(home)
    ensures HasNotes(home) ==> |PromptLines(home)| == 9 && PromptLines(home)[8] == "- Notes: " + home.notes.value
    ensures !HasNotes(home) ==> |PromptLines(home)| == 8
  {
    var lines := PromptLines(home);
    forall k | 0 <= k < 8
      ensures !("- Notes: " <= lines[k])
    {
      assert k == 0 ==> lines[k][0] == 'Y';
      assert k == 1 ==> lines[k][0] == 'R';
      assert k == 3 ==> lines[k][0] == 'H';
      assert 4 <= k ==> lines[k][2] != 'N';
    }
    if HasNotes(home) {
      assert "- Notes: " <= lines[8];
    }
  }

  /** The prompt embeds the fixed instructions, the size and the heating
      type whatever the home, and the year built and the insulation level
      whenever they are recorded. */
  lemma PromptEmbedsProfile(home: Home)
    ensures PromptLines(home)[..4] == [Instruction, FormatRule, "", ProfileHeading]
    ensures PromptLines(home)[4] == "- Size: " + IntToString(home.sizeSqm) + " m\U{00B2}"
    ensures home.yearBuilt.Some? && home.yearBuilt.value != 0 ==>
      PromptLines(home)[5] == "- Year built: " + IntToString(home.yearBuilt.value)
    ensures PromptLines(home)[6] == "- Heating: " + HeatingTypeValue(home.heatingType)
    ensures home.insulation.Some? ==>
      PromptLines(home)[7] == "- Insulation: " + InsulationValue(home.insulation.value)
  {
  }

  lemma NoLineBreaksConcat(a: string, b: string)
    requires NoLineBreaks(a) && NoLineBreaks(b)
    ensures NoLineBreaks(a + b)
  {
    assert forall i :: |a| <= i < |a + b| ==> (a + b)[i] == b[i - |a|];
  }

  lemma IntToStringNoLineBreaks(i: int)
    ensures NoLineBreaks(IntToString(i))
  {
  }

  // The pieces of Instruction and FormatRule, one lemma each to keep every proof small.
  lemma Piece0NoLineBreaks()
    ensures NoLineBreaks("You are an energy efficiency advisor. ")
  {
  }

  lemma Piece1NoLineBreaks()
    ensures NoLineBreaks("Based on the following home profile, ")
  {
  }

  lemma Piece2NoLineBreaks()
    ensures NoLineBreaks("provide actionable, prioritized ")
  {
  }

  lemma Piece3NoLineBreaks()
    ensures NoLineBreaks("energy-saving recommendations.")
  {
  }

  lemma Piece4NoLineBreaks()
    ensures NoLineBreaks("Respond with a numbered list ")
  {
  }

  lemma Piece5NoLineBreaks()
    ensures NoLineBreaks("of recommendations only, ")
  {
  }

  lemma Piece6NoLineBreaks()
    ensures NoLineBreaks("one per line. ")
  {
  }

  lemma Piece7NoLineBreaks()
    ensures NoLineBreaks("No preamble or conclusion.")
  {
  }

  lemma FixedTextNoLineBreaks()
    ensures NoLineBreaks(Instruction) && NoLineBreaks(FormatRule)
  {
    var a, b, c, d := "You are an energy efficiency advisor. ", "Based on the following home profile, ",
      "provide actionable, prioritized ", "energy-saving recommendations.";
    Piece0NoLineBreaks();
    Piece1NoLineBreaks();
    Piece2NoLineBreaks();
    Piece3NoLineBreaks();
    NoLineBreaksConcat(a, b);
    NoLineBreaksConcat(a + b, c);
    NoLineBreaksConcat(a + b + c, d);
    var e, f, g, h := "Respond with a numbered list ", "of recommendations only, ", "one per line. ",
      "No preamble or conclusion.";
    Piece4NoLineBreaks();
    Piece5NoLineBreaks();
    Piece6NoLineBreaks();
    Piece7NoLineBreaks();
    NoLineBreaksConcat(e, f);
    NoLineBreaksConcat(e + f, g);
    NoLineBreaksConcat(e + f + g, h);
  }

  lemma SizeLineNoLineBreaks(home: Home)
    ensures NoLineBreaks(SizeLine(home))
  {
    IntToStringNoLineBreaks(home.sizeSqm);
    assert NoLineBreaks("- Size: ") && NoLineBreaks(" m\U{00B2}");
    NoLineBreaksConcat("- Size: ", IntToString(home.sizeSqm));
    NoLineBreaksConcat("- Size: " + IntToString(home.sizeSqm), " m\U{00B2}");
  }

  lemma YearLineNoLineBreaks(home: Home)
    ensures NoLineBreaks(YearLine(home))
  {
    if home.yearBuilt.Some? {
      IntToStringNoLineBreaks(home.yearBuilt.value);
    }
    assert NoLineBreaks("- Year built: ") && NoLineBreaks(YearText(home));
    NoLineBreaksConcat("- Year built: ", YearText(home));
  }

  lemma HeatingLineNoLineBreaks(home: Home)
    ensures NoLineBreaks(HeatingLine(home))
  {
    assert NoLineBreaks("- Heating: ") && NoLineBreaks(HeatingTypeValue(home.heatingType));
    NoLineBreaksConcat("- Heating: ", HeatingTypeValue(home.heatingType));
  }

  lemma InsulationLineNoLineBreaks(home: Home)
    ensures NoLineBreaks(InsulationLine(home))
  {
    assert NoLineBreaks("- Insulation: ") && NoLineBreaks(InsulationText(home));
    NoLineBreaksConcat("- Insulation: ", InsulationText(home));
  }

  lemma NotesLineNoLineBreaks(notes: string)
    requires NoLineBreaks(notes)
    ensures NoLineBreaks(NotesLine(notes))
  {
    assert NoLineBreaks("- Notes: ");
    NoLineBreaksConcat("- Notes: ", notes);
  }

  /** When the notes hold no line break, the backend sees exactly the
      prompt lines: splitting the prompt text into lines gives them back. */
  lemma PromptSplitsIntoLines(home: Home)
    requires home.notes.Some? ==> NoLineBreaks(home.notes.value)
    ensures SplitLines(Prompt(home)) == PromptLines(home)
  {
    var lines := PromptLines(home);
    FixedTextNoLineBreaks();
    assert NoLineBreaks(ProfileHeading) && NoLineBreaks("");
    SizeLineNoLineBreaks(home);
    YearLineNoLineBreaks(home);
    HeatingLineNoLineBreaks(home);
    InsulationLineNoLineBreaks(home);
    if HasNotes(home) {
      NotesLineNoLineBreaks(home.notes.value);
    }
    assert lines[|lines| - 1] != "";
    SplitLinesOfJoin(lines);
  }

  // ================================================================ parsing

  /** `[line.strip() for line in text.strip().splitlines() if line.strip()]`. */
  function NonBlankLines(text: string): seq<string>
  {
    Filter(NonEmpty, Map(Strip, SplitLines(Strip(text))))
  }

  /** What the loop of `_parse_recommendations` collects: each line with its
      leading list markers removed, when something is left. */
  function Survivors(lines: seq<string>): seq<string>
  {
    Filter(NonEmpty, Map(StripListMarkers, lines))
  }

  /** `_parse_recommendations(text)`: the surviving lines, or, when none
      survives, the whole stripped text as the only recommendation. */
  function Recommendations(text: string): seq<string>
  {
    var kept := Survivors(NonBlankLines(text));
    if kept != [] then kept else [Strip(text)]
  }

  /** One more line for the loop of `_parse_recommendations`. */
  lemma SurvivorsStep(lines: seq<string>, i: nat)
    requires i < |lines|
    ensures var stripped := StripListMarkers(lines[i]);
      Survivors(lines[..i + 1]) == Survivors(lines[..i]) + (if stripped != "" then [stripped] else [])
  {
    assert lines[..i + 1] == lines[..i] + [lines[i]];
    MapSnoc(StripListMarkers, lines[..i], lines[i]);
    FilterSnoc(NonEmpty, Map(StripListMarkers, lines[..i]), StripListMarkers(lines[i]));
  }

  /** `_parse_recommendations`, with its loop over the non-blank lines. */
  method ParseRecommendations(text: string) returns (result: seq<string>)
    ensures result == Recommendations(text)
  {
    var lines := NonBlankLines(text);
    var kept: seq<string> := [];
    for i := 0 to |lines|
      invariant kept == Survivors(lines[..i])
    {
      var stripped := StripListMarkers(lines[i]);
      SurvivorsStep(lines, i);
      if stripped != "" {
        kept := kept + [stripped];
      }
    }
    assert lines[..|lines|] == lines;
    if kept != [] {
      result := kept;
    } else {
      result := [Strip(text)];
    }
  }

  /** The parser never returns an empty list. */
  lemma RecommendationsNonEmpty(text: string)
    ensures |Recommendations(text)| >= 1
  {
  }

  /** The fallback happens exactly when every non-blank line is made of list
      markers only; it returns the stripped text, which is "" for blank text. */
  lemma RecommendationsFallback(text: string)
    ensures var lines := NonBlankLines(text);
      (forall k :: 0 <= k < |lines| ==> StripListMarkers(lines[k]) == "")
      <==> Recommendations(text) == [Strip(text)] && Survivors(lines) == []
    ensures (forall i :: 0 <= i < |text| ==> IsSpace(text[i])) ==> Recommendations(text) == [""]
  {
    var lines := NonBlankLines(text);
    var stripped := Map(StripListMarkers, lines);
    FilterEmptyIff(NonEmpty, stripped);
    StripEmptyIff(text);
  }

  /** Stripping and dropping the empty results leaves lines that are not
      empty and have whitespace at neither end. */
  lemma StrippedNonEmptyShape(raw: seq<string>, k: nat)
    requires k < |Filter(NonEmpty, Map(Strip, raw))|
    ensures var line := Filter(NonEmpty, Map(Strip, raw))[k];
      line != "" && !IsSpace(line[0]) && !IsSpace(line[|line| - 1])
  {
    FilterMapSource(NonEmpty, Strip, raw, k);
    var j :| 0 <= j < |raw| && Filter(NonEmpty, Map(Strip, raw))[k] == Strip(raw[j]) && NonEmpty(Strip(raw[j]));
    StripEnds(raw[j]);
  }

  /** Every line kept by NonBlankLines is non-empty and already stripped. */
  lemma NonBlankLinesStripped(text: string, k: nat)
    requires k < |NonBlankLines(text)|
    ensures var line := NonBlankLines(text)[k];
      line != "" && !IsSpace(line[0]) && !IsSpace(line[|line| - 1])
  {
    StrippedNonEmptyShape(SplitLines(Strip(text)), k);
  }

  /** What the loop keeps from lines without trailing whitespace: non-empty,
      not starting with a marker, not ending in whitespace, and one of the
      lines with its markers cut off. */
  lemma SurvivorShape(lines: seq<string>, k: nat)
    requires forall j :: 0 <= j < |lines| ==> lines[j] != "" && !IsSpace(lines[j][|lines[j]| - 1])
    requires k < |Survivors(lines)|
    ensures var r := Survivors(lines)[k];
      && r != ""
      && !IsListMarker(r[0])
      && !IsSpace(r[|r| - 1])
      && exists j :: 0 <= j < |lines| && r == StripListMarkers(lines[j])
  {
    FilterMapSource(NonEmpty, StripListMarkers, lines, k);
    var j :| 0 <= j < |lines| && Survivors(lines)[k] == StripListMarkers(lines[j]) && NonEmpty(StripListMarkers(lines[j]));
    StripListMarkersKeepsEnd(lines[j]);
  }

  /** Without the fallback, each recommendation is a line with its markers
      cut off: non-empty, not starting with a marker, not ending in
      whitespace, and a suffix of one of the non-blank lines. */
  lemma RecommendationShape(text: string, k: nat)
    requires Survivors(NonBlankLines(text)) != []
    requires k < |Recommendations(text)|
    ensures var r := Recommendations(text)[k];
      && r != ""
      && !IsListMarker(r[0])
      && !IsSpace(r[|r| - 1])
      && exists j :: 0 <= j < |NonBlankLines(text)| && r == StripListMarkers(NonBlankLines(text)[j])
  {
    var lines := NonBlankLines(text);
    forall j | 0 <= j < |lines|
      ensures lines[j] != "" && !IsSpace(lines[j][|lines[j]| - 1])
    {
      NonBlankLinesStripped(text, j);
    }
    SurvivorShape(lines, k);
  }

  /** Without the fallback, the recommendations are the marker-stripped
      lines in their original order, picked at exactly the positions where
      something is left after the markers, so there are at most as many as
      non-blank lines. */
  lemma RecommendationsInOrder(text: string)
    requires Survivors(NonBlankLines(text)) != []
    ensures IsSubsequence(Recommendations(text), Map(StripListMarkers, NonBlankLines(text)))
    ensures var stripped := Map(StripListMarkers, NonBlankLines(text));
      var idx := FilterIndices(NonEmpty, stripped);
      && Embeds(Recommendations(text), stripped, idx)
      && forall i :: 0 <= i < |stripped| ==> (i in idx <==> stripped[i] != "")
    ensures |Recommendations(text)| <= |NonBlankLines(text)|
  {
    SurvivorsInOrder(NonBlankLines(text));
  }

  lemma SurvivorsInOrder(lines: seq<string>)
    ensures var stripped := Map(StripListMarkers, lines);
      var idx := FilterIndices(NonEmpty, stripped);
      && IsSubsequence(Survivors(lines), stripped)
      && Embeds(Survivors(lines), stripped, idx)
      && forall i :: 0 <= i < |stripped| ==> (i in idx <==> stripped[i] != "")
  {
    var stripped := Map(StripListMarkers, lines);
    FilterIsSubsequence(NonEmpty, stripped);
    FilterIndicesExact(NonEmpty, stripped);
  }

  /** Every non-blank line with something left after its markers is kept:
      the loop drops only lines made of markers alone. */
  lemma RecommendationsKeepEvery(text: string, j: nat)
    requires j < |NonBlankLines(text)| && StripListMarkers(NonBlankLines(text)[j]) != ""
    ensures StripListMarkers(NonBlankLines(text)[j]) in Recommendations(text)
  {
    FilterKeeps(NonEmpty, Map(StripListMarkers, NonBlankLines(text)), j);
  }

  // ---------------------------------------------------------------- parsing a written list

  lemma {:induction false} StripListMarkersAfter(prefix: string, s: string)
    requires forall i :: 0 <= i < |prefix| ==> IsListMarker(prefix[i])
    requires s == "" || !IsListMarker(s[0])
    ensures StripListMarkers(prefix + s) == s
  {
    if prefix != "" {
      assert (prefix + s)[1..] == prefix[1..] + s;
      StripListMarkersAfter(prefix[1..], s);
    }
  }

  /** The joined text starts where the first part starts and ends where
      the last part ends. */
  lemma {:induction false} JoinEnds(parts: seq<string>, sep: string)
    requires parts != [] && forall k :: 0 <= k < |parts| ==> parts[k] != ""
    ensures var s := Join(parts, sep); s != "" && s[0] == parts[0][0] && s[|s| - 1] == parts[|parts| - 1][|parts[|parts| - 1]| - 1]
  {
    if |parts| > 1 {
      var rest := parts[1..];
      JoinEnds(rest, sep);
      var s, tail := Join(parts, sep), Join(rest, sep);
      assert s == parts[0] + sep + tail;
      assert s[0] == parts[0][0];
      assert s[|s| - 1] == tail[|tail| - 1];
      assert rest[|rest| - 1] == parts[|parts| - 1];
    }
  }

  /** A list item as the backend may write it: a run of list markers (say
      "3. " or "\U{2022} ") followed by the recommendation. */
  function MarkedLines(markers: seq<string>, items: seq<string>): (lines: seq<string>)
    requires |markers| == |items|
    ensures |lines| == |items|
    ensures forall k :: 0 <= k < |items| ==> lines[k] == markers[k] + items[k]
  {
    seq(|items|, k requires 0 <= k < |items| => markers[k] + items[k])
  }

  /** A well-formed item: one line, not empty, not starting with a list
      marker, and without whitespace at either end. */
  ghost predicate CleanItem(item: string)
  {
    && item != ""
    && NoLineBreaks(item)
    && !IsListMarker(item[0])
    && !IsSpace(item[0])
    && !IsSpace(item[|item| - 1])
  }

  /** A well-formed marker: list-marker characters only, not starting with
      a space. */
  predicate MarkerOnly(marker: string)
  {
    && (forall i :: 0 <= i < |marker| ==> IsListMarker(marker[i]))
    && (marker == "" || marker[0] != ' ')
  }

  /** A list of items, each with its marker. */
  ghost predicate WellFormedList(markers: seq<string>, items: seq<string>)
  {
    && |markers| == |items| >= 1
    && (forall k :: 0 <= k < |items| ==> CleanItem(items[k]))
    && (forall k :: 0 <= k < |markers| ==> MarkerOnly(markers[k]))
  }

  /** One item after its marker makes one clean line. */
  lemma MarkedLineFacts(marker: string, item: string)
    requires CleanItem(item) && MarkerOnly(marker)
    ensures var line := marker + item;
      && NoLineBreaks(line) && Trimmed(line)
      && StripListMarkers(line) == item
  {
    assert forall i :: 0 <= i < |marker| ==> !IsLineBreak(marker[i]);
    NoLineBreaksConcat(marker, item);
    StripListMarkersAfter(marker, item);
    MarkedLineTrimmed(marker, item);
  }

  lemma MarkedLineTrimmed(marker: string, item: string)
    requires item != "" && !IsSpace(item[0]) && !IsSpace(item[|item| - 1])
    requires marker == "" || (marker[0] != ' ' && IsListMarker(marker[0]))
    ensures Trimmed(marker + item)
  {
    var line := marker + item;
    assert line[|line| - 1] == item[|item| - 1];
    assert line[0] == if marker == "" then item[0] else marker[0];
  }

  /** Joining trimmed lines gives a trimmed text. */
  lemma JoinOfTrimmed(lines: seq<string>)
    requires lines != [] && forall k :: 0 <= k < |lines| ==> Trimmed(lines[k])
    ensures Trimmed(Join(lines, "\n"))
  {
    assert Trimmed(lines[0]) && Trimmed(lines[|lines| - 1]);
    JoinEnds(lines, "\n");
  }

  /** Stripping leaves trimmed lines as they are. */
  lemma StripFixesTrimmed(lines: seq<string>)
    requires forall k :: 0 <= k < |lines| ==> Trimmed(lines[k])
    ensures Map(Strip, lines) == lines
    ensures Filter(NonEmpty, lines) == lines
  {
    forall k | 0 <= k < |lines|
      ensures Strip(lines[k]) == lines[k]
    {
      StripOfTrimmed(lines[k]);
    }
    MapFixed(Strip, lines);
    TrimmedKept(lines);
  }

  lemma TrimmedKept(lines: seq<string>)
    requires forall k :: 0 <= k < |lines| ==> Trimmed(lines[k])
    ensures Filter(NonEmpty, lines) == lines
  {
    FilterAllKept(NonEmpty, lines);
  }

  /** Trimmed lines free of line breaks come back from the line splitting
      of their "\n"-join unchanged. */
  lemma NonBlankLinesOfJoin(lines: seq<string>)
    requires lines != []
    requires forall k :: 0 <= k < |lines| ==> NoLineBreaks(lines[k])
    requires forall k :: 0 <= k < |lines| ==> Trimmed(lines[k])
    ensures NonBlankLines(Join(lines, "\n")) == lines
  {
    JoinOfTrimmed(lines);
    StripOfTrimmed(Join(lines, "\n"));
    SplitLinesOfJoin(lines);
    StripFixesTrimmed(lines);
    NonBlankLinesOf(Join(lines, "\n"), lines);
  }

  lemma NonBlankLinesOf(text: string, lines: seq<string>)
    requires Strip(text) == text && SplitLines(text) == lines
    requires Map(Strip, lines) == lines && Filter(NonEmpty, lines) == lines
    ensures NonBlankLines(text) == lines
  {
  }

  /** Every marked line of a well-formed list is one clean line. */
  lemma MarkedLinesClean(markers: seq<string>, items: seq<string>)
    requires WellFormedList(markers, items)
    ensures var lines := MarkedLines(markers, items);
      forall k :: 0 <= k < |lines| ==>
        && NoLineBreaks(lines[k]) && Trimmed(lines[k])
        && StripListMarkers(lines[k]) == items[k]
  {
    forall k | 0 <= k < |items|
      ensures var line := MarkedLines(markers, items)[k];
        && NoLineBreaks(line) && Trimmed(line)
        && StripListMarkers(line) == items[k]
    {
      MarkedLineFacts(markers[k], items[k]);
    }
  }

  /** The loop keeps every item of a marked list, markers removed. */
  lemma SurvivorsOfMarked(lines: seq<string>, items: seq<string>)
    requires |lines| == |items|
    requires forall k :: 0 <= k < |lines| ==> StripListMarkers(lines[k]) == items[k] && items[k] != ""
    ensures Survivors(lines) == items
  {
    assert Map(StripListMarkers, lines) == items;
    FilterAllKept(NonEmpty, items);
  }

  /** Parsing a list written one marked item per line gives back exactly the
      items, in order: the parser inverts the format the prompt asks for. */
  lemma ParseWrittenList(markers: seq<string>, items: seq<string>)
    requires WellFormedList(markers, items)
    ensures Recommendations(Join(MarkedLines(markers, items), "\n")) == items
  {
    var lines := MarkedLines(markers, items);
    MarkedLinesClean(markers, items);
    NonBlankLinesOfJoin(lines);
    SurvivorsOfMarked(lines, items);
  }

  const NumberMarkers: seq<string> := ["1. ", "2. ", "3. "]
  const NumberedItems: seq<string> := ["First tip", "Second tip", "Third tip"]

  lemma NumberedItemsClean()
    ensures CleanItem("First tip") && CleanItem("Second tip") && CleanItem("Third tip")
  {
  }

  lemma NumberedListWellFormed()
    ensures WellFormedList(NumberMarkers, NumberedItems)
  {
    NumberedItemsClean();
    assert MarkerOnly("1. ") && MarkerOnly("2. ") && MarkerOnly("3. ");
  }

  lemma NumberedListLines()
    ensures MarkedLines(NumberMarkers, NumberedItems) == ["1. First tip", "2. Second tip", "3. Third tip"]
  {
    var lines := MarkedLines(NumberMarkers, NumberedItems);
    assert lines[0] == "1. First tip" && lines[1] == "2. Second tip" && lines[2] == "3. Third tip";
  }

  lemma NumberedLiteral()
    ensures "1. First tip\n2. Second tip\n3. Third tip" == "1. First tip" + "\n" + ("2. Second tip" + "\n" + "3. Third tip")
  {
  }

  lemma NumberedListText()
    ensures Join(MarkedLines(NumberMarkers, NumberedItems), "\n") == "1. First tip\n2. Second tip\n3. Third tip"
  {
    NumberedListLines();
    assert ["1. First tip", "2. Second tip", "3. Third tip"] == ["1. First tip"] + ["2. Second tip", "3. Third tip"];
    JoinCons("1. First tip", ["2. Second tip", "3. Third tip"], "\n");
    assert ["2. Second tip", "3. Third tip"] == ["2. Second tip"] + ["3. Third tip"];
    JoinCons("2. Second tip", ["3. Third tip"], "\n");
    NumberedLiteral();
  }

  /** `_parse_recommendations("1. First tip\n2. Second tip\n3. Third tip")`. */
  lemma ParseNumberedExample()
    ensures Recommendations("1. First tip\n2. Second tip\n3. Third tip") == ["First tip", "Second tip", "Third tip"]
  {
    NumberedListWellFormed();
    NumberedListText();
    ParseWrittenList(NumberMarkers, NumberedItems);
  }

  const BulletMarkers: seq<string> := ["\U{2022} ", "\U{2022} "]
  const BulletItems: seq<string> := ["One", "Two"]

  lemma BulletListWellFormed()
    ensures WellFormedList(BulletMarkers, BulletItems)
  {
  }

  lemma BulletListText()
    ensures Join(MarkedLines(BulletMarkers, BulletItems), "\n") == "\U{2022} One\n\U{2022} Two"
  {
    var lines := MarkedLines(BulletMarkers, BulletItems);
    assert lines[0] == "\U{2022} One" && lines[1] == "\U{2022} Two";
    assert Join(lines[1..], "\n") == "\U{2022} Two";
  }

  /** `_parse_recommendations("\U{2022} One\n\U{2022} Two")`. */
  lemma ParseBulletExample()
    ensures Recommendations("\U{2022} One\n\U{2022} Two") == ["One", "Two"]
  {
    BulletListWellFormed();
    BulletListText();
    ParseWrittenList(BulletMarkers, BulletItems);
  }

  // ================================================================ providers

  const MockRecommendations: seq<string> := [
    "Consider upgrading to a heat pump if your heating system is old.",
    "Improve insulation in the attic and walls where possible.",
    "Install programmable thermostats to reduce heating when away.",
    "Seal drafts around windows and doors.",
    "Switch to LED lighting and energy-efficient appliances."
  ]

  /** The model name configured when the environment does not give one. */
  const DefaultModel: string := "gpt-4o-mini"

  /** The two implementations of `LLMProvider`. */
  datatype Provider = MockProvider | OpenAIProvider(apiKey: string, model: string)

  /** `get_llm_provider`: the external provider when an API key is
      configured, with the configured model; the fixed list otherwise. */
  function GetLlmProvider(apiKey: string, model: string): (p: Provider)
    ensures p.OpenAIProvider? <==> apiKey != ""
    ensures p.OpenAIProvider? ==> p.apiKey == apiKey && p.model == model
  {
    if apiKey != "" then OpenAIProvider(apiKey, model) else MockProvider
  }

  /** Under the default settings no API key is configured, so the fixed
      list answers; a key given alone selects the external provider with the
      default model. */
  lemma DefaultSettingsProvider(apiKey: string)
    ensures GetLlmProvider("", DefaultModel) == MockProvider
    ensures apiKey != "" ==> GetLlmProvider(apiKey, DefaultModel) == OpenAIProvider(apiKey, "gpt-4o-mini")
  {
  }

  /** What the backend's chat completion gives for a model and a prompt:
      it raises (network, authentication, a reply without choices, any
      other error), or it replies with a message whose content may be null. */
  datatype Completion = CallFailed | Replied(content: Option<string>)

  /** The outcome of `generate_advice`: a list, or an exception. */
  datatype Advice = Generated(recommendations: seq<string>) | Raised

  /** `provider.generate_advice(home)`, the backend call given as `complete`. */
  function GenerateAdvice(p: Provider, home: Home, complete: (string, string) -> Completion): (a: Advice)
    ensures p.MockProvider? ==> a == Generated(MockRecommendations)
    ensures p.OpenAIProvider? ==> (a.Raised? <==> complete(p.model, Prompt(home)).CallFailed?)
    ensures p.OpenAIProvider? && complete(p.model, Prompt(home)).Replied? ==>
      var content := complete(p.model, Prompt(home)).content;
      a.recommendations == Recommendations(if content.Some? then content.value else "")
    ensures a.Generated? ==> |a.recommendations| >= 1
  {
    match p
    case MockProvider => Generated(MockRecommendations)
    case OpenAIProvider(_, model) =>
      match complete(model, Prompt(home))
      case CallFailed => Raised
      case Replied(content) =>
        var text := if content.Some? then content.value else "";
        RecommendationsNonEmpty(text);
        Generated(Recommendations(text))
  }

  /** The fallback gives the same five recommendations for every home and
      never consults the backend. */
  lemma MockAdviceIsFixed(h1: Home, h2: Home, c1: (string, string) -> Completion, c2: (string, string) -> Completion)
    ensures GenerateAdvice(MockProvider, h1, c1) == GenerateAdvice(MockProvider, h2, c2)
    ensures |GenerateAdvice(MockProvider, h1, c1).recommendations| == 5
  {
  }
}
