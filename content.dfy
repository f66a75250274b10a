/** The rule-based content analysis of src/llm_analysis/content_understanding.py:
    joining the pages' text, the line scanner of `analyze_with_rules` with
    its heading, heading-level and list tests, the breadth-first parent
    search, and the dispatch of `analyze_content`.

    The scanner's local variables (`current_section`, `current_level`,
    `in_list`, `list_items` and the structure's section list) are the
    fields of a `ScanState`; `current_section` and the parent found by the
    search are references into the tree, here paths (see `SectionPaths`).
    The method `AnalyzeWithRules` runs the source's loop and is proved
    equal to `RulesSpec`, a fold of `Step` over the lines; the lemmas say
    what the fold produces. */
module ContentUnderstanding {
  import opened Wrappers
  import opened Exceptions
  import opened Builtins
  import opened Models
  import opened SectionPaths
  import opened ErrorHandling

  // ---------------------------------------------------- combine_extracted_text

  function RawTexts(ets: seq<ExtractedText>): seq<string> {
    seq(|ets|, i requires 0 <= i < |ets| => ets[i].rawText)
  }

  /** The pages' raw text, in order, separated by blank lines. */
  function CombineExtractedText(ets: seq<ExtractedText>): string {
    Join("\n\n", RawTexts(ets))
  }

  /** One page gives its own text; each further page adds `"\n\n"` and its
      text at the end. */
  lemma CombineSnoc(ets: seq<ExtractedText>, e: ExtractedText)
    ensures CombineExtractedText([e]) == e.rawText
    ensures ets != [] ==> CombineExtractedText(ets + [e]) == CombineExtractedText(ets) + "\n\n" + e.rawText
  {
    assert RawTexts([e]) == [e.rawText];
    assert RawTexts(ets + [e]) == RawTexts(ets) + [e.rawText];
    if ets != [] {
      JoinSnoc("\n\n", RawTexts(ets), e.rawText);
    }
  }

  // ------------------------------------------------------------- line tests

  /** The list-marker test of `analyze_with_rules` on a non-empty stripped
      line: one of five prefixes, or a digit followed by `". "` or `") "`. */
  predicate IsListLine(line: string)
    requires line != []
  {
    || StartsWith(line, "- ") || StartsWith(line, "• ") || StartsWith(line, "* ")
    || StartsWith(line, "1. ") || StartsWith(line, "2. ")
    || (IsDigitChar(line[0]) && (Slice(line, 1, 3) == ". " || Slice(line, 1, 3) == ") "))
  }

  /** Character by character: a bullet and a space, or a digit, a `.` or
      `)`, and a space. The `"1. "` and `"2. "` prefixes add nothing. */
  lemma ListLineChars(line: string)
    requires line != []
    ensures IsListLine(line) <==>
      (|line| >= 2 && line[0] in "-•*" && line[1] == ' ')
      || (|line| >= 3 && IsDigitChar(line[0]) && line[1] in ".)" && line[2] == ' ')
  {
    if |line| >= 3 {
      assert Slice(line, 1, 3) == [line[1], line[2]];
      assert line[..3] == [line[0], line[1], line[2]];
    }
    if |line| >= 2 {
      assert line[..2] == [line[0], line[1]];
    }
  }

  /** The message of the ValueError `list.index` raises. */
  function NotInList(x: string): Error {
    Error(ValueError, "'" + x + "' is not in list")
  }

  /** `is_likely_heading` on a non-empty line: a `#` prefix, a final `:`, or
      a short line with an uppercase first character; otherwise the line
      after the first occurrence of `line` in `allLines` must be blank.
      `list.index` raises when `line` does not occur in `allLines`. */
  function IsLikelyHeading(line: string, allLines: seq<string>): Result<bool, Error>
    requires line != []
  {
    if StartsWith(line, "#") || EndsWith(line, ":") then Ok(true)
    else if |line| < 50 && IsUpperChar(line[0]) then Ok(true)
    else match IndexOf(allLines, line)
      case None => Err(NotInList(line))
      case Some(lineIndex) => Ok(lineIndex < |allLines| - 1 && IsBlank(allLines[lineIndex + 1]))
  }

  /** The quick tests decide alone; otherwise the test fails with ValueError
      exactly when the line is missing, and holds exactly when the line's
      first occurrence is followed by a blank line. */
  lemma LikelyHeadingCases(line: string, allLines: seq<string>)
    requires line != []
    ensures var quick := StartsWith(line, "#") || EndsWith(line, ":") || (|line| < 50 && IsUpperChar(line[0]));
      var r := IsLikelyHeading(line, allLines);
      (quick ==> r == Ok(true))
      && (!quick ==> (r.Err? <==> line !in allLines))
      && (r.Err? ==> r.error == NotInList(line) && r.error.kind == ValueError)
      && (!quick && r.Ok? ==>
            (r.value <==> exists i :: 0 <= i < |allLines| - 1 && allLines[i] == line && line !in allLines[..i]
                                     && IsBlank(allLines[i + 1])))
  {
    var quick := StartsWith(line, "#") || EndsWith(line, ":") || (|line| < 50 && IsUpperChar(line[0]));
    forall i | 0 <= i < |allLines| && allLines[i] == line && line !in allLines[..i]
      ensures IndexOf(allLines, line) == Some(i)
    {
      IndexOfFirst(allLines, line, i);
    }
  }

  predicate IsHash(c: char) {
    c == '#'
  }

  /** `estimate_heading_level`: the number of leading `#` capped at 6 for a
      `#` heading, otherwise 1 for an all-uppercase heading, 2 for one
      shorter than 30 characters and 3 for the rest. */
  function HeadingLevel(heading: string): int {
    if StartsWith(heading, "#") then Min(LeadingRun(heading, IsHash), 6)
    else if StrIsUpper(heading) then 1
    else if |heading| < 30 then 2
    else 3
  }

  /** `k` hashes followed by anything that does not start with `#` give
      level `min(k, 6)`. */
  lemma HeadingLevelOfHashes(k: nat, rest: string)
    requires k >= 1 && (rest == [] || rest[0] != '#')
    ensures HeadingLevel(seq(k, _ => '#') + rest) == Min(k, 6)
  {
    var h := seq(k, _ => '#') + rest;
    assert h[..1] == "#";
    assert k < |h| ==> h[k] == rest[0];
    LeadingRunUnique(h, IsHash, k);
  }

  /** The micro sign is lowercase, so a line holding it is not upper case
      and gets level 2. */
  lemma MicroSignLevel()
    ensures HeadingLevel("AB\U{b5}") == 2
  {
    var h := "AB\U{b5}";
    assert h[0] == 'A' && !IsHash(h[0]);
    assert IsLowerChar(h[2]);
    assert !StrIsUpper(h);
  }

  method EstimateHeadingLevel(heading: string) returns (level: int)
    ensures level == HeadingLevel(heading)
    ensures 1 <= level <= 6
  {
    if StartsWith(heading, "#") {
      var hashes := 0;
      for i := 0 to |heading|
        invariant hashes == i
        invariant forall k :: 0 <= k < i ==> IsHash(heading[k])
      {
        if heading[i] == '#' {
          hashes := hashes + 1;
        } else {
          LeadingRunUnique(heading, IsHash, hashes);
          break;
        }
      }
      if hashes == |heading| {
        LeadingRunUnique(heading, IsHash, hashes);
      }
      assert heading[0] == heading[..1][0];
      return Min(hashes, 6);
    }
    if StrIsUpper(heading) {
      return 1;
    } else if |heading| < 30 {
      return 2;
    } else {
      return 3;
    }
  }

  // ----------------------------------------------------- find_parent_section

  /** A section met by the search, with its address. */
  datatype Node = Node(path: Path, section: ContentSection)

  /** Every node's path addresses its section in `secs`. */
  predicate NodesIn(secs: seq<ContentSection>, layer: seq<Node>) {
    forall i :: 0 <= i < |layer| ==> ValidPath(secs, layer[i].path) && At(secs, layer[i].path) == layer[i].section
  }

  function Sections(layer: seq<Node>): seq<ContentSection> {
    seq(|layer|, i requires 0 <= i < |layer| => layer[i].section)
  }

  /** The top-level sections, where the search starts. */
  function Roots(secs: seq<ContentSection>): seq<Node> {
    seq(|secs|, i requires 0 <= i < |secs| => Node([i], secs[i]))
  }

  function ChildNodes(n: Node): seq<Node> {
    seq(|n.section.subsections|, j requires 0 <= j < |n.section.subsections| =>
      Node(n.path + [j], n.section.subsections[j]))
  }

  /** `next_sections`: the subsections of the layer's sections, in order. */
  function NextLayer(layer: seq<Node>): seq<Node> {
    if layer == [] then [] else NextLayer(layer[..|layer| - 1]) + ChildNodes(layer[|layer| - 1])
  }

  lemma SectionsAppend(a: seq<Node>, b: seq<Node>)
    ensures Sections(a + b) == Sections(a) + Sections(b)
  {
  }

  lemma SectionsChildNodes(n: Node)
    ensures Sections(ChildNodes(n)) == n.section.subsections
  {
  }

  /** One more node adds its subsections at the end of the next layer. */
  lemma NextLayerSnoc(layer: seq<Node>)
    requires layer != []
    ensures var init, n := layer[..|layer| - 1], layer[|layer| - 1];
      Sections(layer) == Sections(init) + [n.section]
      && Sections(NextLayer(layer)) == Sections(NextLayer(init)) + n.section.subsections
  {
    var init, n := layer[..|layer| - 1], layer[|layer| - 1];
    assert layer == init + [n];
    SectionsAppend(init, [n]);
    SectionsAppend(NextLayer(init), ChildNodes(n));
    SectionsChildNodes(n);
  }

  /** The next layer holds the sections below this one, so it is smaller. */
  lemma {:induction false} NextLayerCount(layer: seq<Node>)
    ensures SectionCount(Sections(layer)) == |layer| + SectionCount(Sections(NextLayer(layer)))
  {
    if layer != [] {
      var init := layer[..|layer| - 1];
      var n := layer[|layer| - 1];
      NextLayerCount(init);
      NextLayerSnoc(layer);
      SectionCountAppend(Sections(init), [n.section]);
      SectionCountAppend(Sections(NextLayer(init)), n.section.subsections);
      SectionCountSingle(n.section);
    }
  }

  /** `next_sections` is the layer's subsection lists, one after another. */
  lemma {:induction false} NextLayerConcat(layer: seq<Node>)
    ensures Sections(NextLayer(layer)) == Concat(seq(|layer|, i requires 0 <= i < |layer| => layer[i].section.subsections))
  {
    if layer != [] {
      var init := layer[..|layer| - 1];
      var n := layer[|layer| - 1];
      NextLayerConcat(init);
      NextLayerSnoc(layer);
      var subs := seq(|layer|, i requires 0 <= i < |layer| => layer[i].section.subsections);
      var initSubs := seq(|init|, i requires 0 <= i < |init| => init[i].section.subsections);
      assert subs == initSubs + [n.section.subsections];
      ConcatAppend(initSubs, [n.section.subsections]);
      ConcatSingle(n.section.subsections);
    }
  }

  /** The first node of the layer whose section has level `target`. */
  function FirstAtLevel(layer: seq<Node>, target: int): (r: Option<Node>)
    ensures r.Some? ==> r.value in layer && r.value.section.level == target
    ensures r.None? <==> forall k :: 0 <= k < |layer| ==> layer[k].section.level != target
  {
    if layer == [] then None
    else if layer[0].section.level == target then Some(layer[0])
    else FirstAtLevel(layer[1..], target)
  }

  lemma {:induction false} FirstAtLevelAt(layer: seq<Node>, target: int, i: nat)
    requires i < |layer| && layer[i].section.level == target
    requires forall k :: 0 <= k < i ==> layer[k].section.level != target
    ensures FirstAtLevel(layer, target) == Some(layer[i])
  {
    if i > 0 {
      FirstAtLevelAt(layer[1..], target, i - 1);
    }
  }

  /** The search layer by layer, each layer scanned left to right. */
  function Bfs(layer: seq<Node>, target: int): Option<Node>
    decreases SectionCount(Sections(layer))
  {
    if layer == [] then None
    else match FirstAtLevel(layer, target)
      case Some(n) => Some(n)
      case None => NextLayerCount(layer); Bfs(NextLayer(layer), target)
  }

  /** What `find_parent_section` returns: no parent for level 1 or less,
      otherwise the first section of level `level - 1` in breadth-first
      order, if any. */
  function FindParentSpec(secs: seq<ContentSection>, level: int): Option<Path> {
    if level <= 1 then None
    else match Bfs(Roots(secs), level - 1)
      case None => None
      case Some(n) => Some(n.path)
  }

  /** The inner scan of one layer: the first section of level `target`. */
  method ScanLayer(layer: seq<Node>, target: int) returns (found: Option<Node>)
    ensures found == FirstAtLevel(layer, target)
  {
    for i := 0 to |layer|
      invariant forall k :: 0 <= k < i ==> layer[k].section.level != target
    {
      if layer[i].section.level == target {
        FirstAtLevelAt(layer, target, i);
        return Some(layer[i]);
      }
    }
    return None;
  }

  /** The loop that gathers `next_sections`. */
  method CollectNext(layer: seq<Node>) returns (nextSections: seq<Node>)
    ensures nextSections == NextLayer(layer)
  {
    nextSections := [];
    for i := 0 to |layer|
      invariant nextSections == NextLayer(layer[..i])
    {
      assert layer[..i + 1][..i] == layer[..i];
      nextSections := nextSections + ChildNodes(layer[i]);
    }
    assert layer[..|layer|] == layer;
  }

  method FindParentSection(secs: seq<ContentSection>, level: int) returns (parent: Option<Path>)
    ensures parent == FindParentSpec(secs, level)
  {
    if level <= 1 {
      return None;
    }
    var sectionsToCheck := Roots(secs);
    var targetLevel := level - 1;
    while sectionsToCheck != []
      invariant Bfs(sectionsToCheck, targetLevel) == Bfs(Roots(secs), targetLevel)
      decreases SectionCount(Sections(sectionsToCheck))
    {
      var found := ScanLayer(sectionsToCheck, targetLevel);
      if found.Some? {
        return Some(found.value.path);
      }
      var nextSections := CollectNext(sectionsToCheck);
      NextLayerCount(sectionsToCheck);
      sectionsToCheck := nextSections;
    }
    return None;
  }

  /** Some section of the forest, at any depth, has level `t`. */
  predicate HasLevel(secs: seq<ContentSection>, t: int) {
    exists i :: 0 <= i < |secs| && (secs[i].level == t || HasLevel(secs[i].subsections, t))
  }

  lemma HasLevelAppend(a: seq<ContentSection>, b: seq<ContentSection>, t: int)
    ensures HasLevel(a + b, t) <==> HasLevel(a, t) || HasLevel(b, t)
  {
    if HasLevel(a + b, t) {
      var i :| 0 <= i < |a + b| && ((a + b)[i].level == t || HasLevel((a + b)[i].subsections, t));
      if i >= |a| {
        assert (a + b)[i] == b[i - |a|];
      }
    }
    if HasLevel(a, t) {
      var i :| 0 <= i < |a| && (a[i].level == t || HasLevel(a[i].subsections, t));
      assert (a + b)[i] == a[i];
    }
    if HasLevel(b, t) {
      var i :| 0 <= i < |b| && (b[i].level == t || HasLevel(b[i].subsections, t));
      assert (a + b)[|a| + i] == b[i];
    }
  }

  lemma NextLayerNodesIn(secs: seq<ContentSection>, layer: seq<Node>)
    requires NodesIn(secs, layer)
    ensures NodesIn(secs, NextLayer(layer))
    decreases |layer|
  {
    if layer != [] {
      var init := layer[..|layer| - 1];
      var n := layer[|layer| - 1];
      NextLayerNodesIn(secs, init);
      forall j | 0 <= j < |n.section.subsections|
        ensures ValidPath(secs, n.path + [j]) && At(secs, n.path + [j]) == n.section.subsections[j]
      {
        AtChild(secs, n.path, j);
      }
    }
  }

  /** A layer holds level `t` somewhere below it exactly when one of its
      nodes has it or the next layer holds it somewhere. */
  lemma {:induction false} HasLevelLayer(layer: seq<Node>, t: int)
    ensures HasLevel(Sections(layer), t) <==>
      (exists k :: 0 <= k < |layer| && layer[k].section.level == t) || HasLevel(Sections(NextLayer(layer)), t)
  {
    if layer != [] {
      var init := layer[..|layer| - 1];
      var n := layer[|layer| - 1];
      HasLevelLayer(init, t);
      assert Sections(layer) == Sections(init) + [n.section];
      assert Sections(NextLayer(layer)) == Sections(NextLayer(init)) + n.section.subsections;
      HasLevelAppend(Sections(init), [n.section], t);
      HasLevelAppend(Sections(NextLayer(init)), n.section.subsections, t);
      assert HasLevel([n.section], t) <==> n.section.level == t || HasLevel(n.section.subsections, t) by {
        assert [n.section][0] == n.section;
      }
      if exists k :: 0 <= k < |layer| && layer[k].section.level == t {
        var k :| 0 <= k < |layer| && layer[k].section.level == t;
        if k < |init| {
          assert init[k] == layer[k];
        }
      }
      if exists k :: 0 <= k < |init| && init[k].section.level == t {
        var k :| 0 <= k < |init| && init[k].section.level == t;
        assert layer[k] == init[k];
      }
    } else {
      assert Sections(layer) == [];
    }
  }

  /** A node found by the search is in the layers below `layer` and has the
      target level; when nothing is found, no section below has it. */
  lemma {:induction false} BfsSound(secs: seq<ContentSection>, layer: seq<Node>, t: int)
    requires NodesIn(secs, layer)
    ensures var r := Bfs(layer, t);
      (r.Some? ==> ValidPath(secs, r.value.path) && At(secs, r.value.path) == r.value.section && r.value.section.level == t)
      && (r.None? ==> !HasLevel(Sections(layer), t))
    decreases SectionCount(Sections(layer))
  {
    if layer != [] {
      var first := FirstAtLevel(layer, t);
      HasLevelLayer(layer, t);
      if first.None? {
        NextLayerCount(layer);
        NextLayerNodesIn(secs, layer);
        BfsSound(secs, NextLayer(layer), t);
      } else {
        var k :| 0 <= k < |layer| && layer[k] == first.value;
      }
    } else {
      assert Sections(layer) == [];
    }
  }

  /** `find_parent_section` finds a section of level `level - 1`, at a valid
      address; it finds none only for level 1 or less, or when no section
      of the tree has level `level - 1`. */
  lemma FindParentFound(secs: seq<ContentSection>, level: int)
    ensures var r := FindParentSpec(secs, level);
      (r.Some? ==> level > 1 && ValidPath(secs, r.value) && At(secs, r.value).level == level - 1)
      && (r.None? && level > 1 ==> !HasLevel(secs, level - 1))
  {
    var roots := Roots(secs);
    assert Sections(roots) == secs;
    BfsSound(secs, roots, level - 1);
  }

  // --------------------------------------------------------- analyze_with_rules

  /** The scanner's variables between two lines. */
  datatype ScanState = ScanState(
    sections: seq<ContentSection>,
    current: Option<Path>,
    currentLevel: int,
    inList: bool,
    listItems: seq<string>)

  const InitialState := ScanState([], None, 0, false, [])

  /** `current_section` addresses a section of the current level, `in_list`
      is set exactly while list lines are pending, and those are list lines
      of one physical line each. */
  predicate ValidState(st: ScanState) {
    && (st.current.Some? ==>
          ValidPath(st.sections, st.current.value) && At(st.sections, st.current.value).level == st.currentLevel)
    && (st.inList <==> st.listItems != [])
    && (forall k :: 0 <= k < |st.listItems| ==>
          st.listItems[k] != [] && IsListLine(st.listItems[k]) && '\n' !in st.listItems[k])
  }

  /** The element a run of list lines collapses into. */
  function ListElement(items: seq<string>): ContentElement {
    ContentElement("list", Join("\n", items))
  }

  function ParagraphElement(line: string): ContentElement {
    ContentElement("paragraph", line)
  }

  /** `current_section.elements.append(e)` when a section is open; the
      element is dropped otherwise. */
  function AddToCurrent(st: ScanState, e: ContentElement): ScanState
    requires ValidState(st)
  {
    if st.current.Some? then st.(sections := AppendElementAt(st.sections, st.current.value, e)) else st
  }

  /** Closing a pending list: its lines become one element of the open
      section, and the list state is cleared. */
  function CloseList(st: ScanState): ScanState
    requires ValidState(st)
  {
    if st.inList && st.listItems != [] then
      AddToCurrent(st, ListElement(st.listItems)).(listItems := [], inList := false)
    else st
  }

  /** Adding the section of a heading line of level `level`: to the root for
      level 1, below the open section when it is deeper, and otherwise
      below the section the parent search finds, or to the root. The new
      section becomes the open one. */
  function PlaceHeading(st: ScanState, line: string, level: int): ScanState
    requires ValidState(st)
  {
    var newSection := ContentSection(level, Some(line), [], []);
    if level == 1 then
      st.(sections := st.sections + [newSection], current := Some([|st.sections|]), currentLevel := level)
    else if st.current.Some? && level > st.currentLevel then
      var p := st.current.value;
      st.(sections := AppendChildAt(st.sections, p, newSection),
          current := Some(p + [|At(st.sections, p).subsections|]), currentLevel := level)
    else match FindParentSpec(st.sections, level)
      case Some(p) =>
        FindParentFound(st.sections, level);
        st.(sections := AppendChildAt(st.sections, p, newSection),
            current := Some(p + [|At(st.sections, p).subsections|]), currentLevel := level)
      case None =>
        st.(sections := st.sections + [newSection], current := Some([|st.sections|]), currentLevel := level)
  }

  /** One line of the scan; only the heading test can raise. */
  function Step(st: ScanState, rawLine: string, lines: seq<string>): Result<ScanState, Error>
    requires ValidState(st)
  {
    var line := Strip(rawLine);
    if line == [] then Ok(CloseList(st))
    else match IsLikelyHeading(line, lines)
      case Err(e) => Err(e)
      case Ok(heading) =>
        if heading then Ok(PlaceHeading(st, line, HeadingLevel(line)))
        else if IsListLine(line) then Ok(st.(inList := true, listItems := st.listItems + [line]))
        else CloseListValid(st); Ok(AddToCurrent(CloseList(st), ParagraphElement(line)))
  }

  lemma CloseListValid(st: ScanState)
    requires ValidState(st)
    ensures ValidState(CloseList(st))
  {
    if st.inList && st.listItems != [] {
      AddToCurrentValid(st, ListElement(st.listItems));
    }
  }

  lemma AddToCurrentValid(st: ScanState, e: ContentElement)
    requires ValidState(st)
    ensures ValidState(AddToCurrent(st, e))
  {
    if st.current.Some? {
      AppendElementAtKeeps(st.sections, st.current.value, e, st.current.value);
    }
  }

  lemma PlaceHeadingValid(st: ScanState, line: string, level: int)
    requires ValidState(st)
    ensures ValidState(PlaceHeading(st, line, level))
  {
    var newSection := ContentSection(level, Some(line), [], []);
    if level == 1 {
    } else if st.current.Some? && level > st.currentLevel {
      AppendChildAtSpec(st.sections, st.current.value, newSection);
    } else {
      FindParentFound(st.sections, level);
      match FindParentSpec(st.sections, level)
      case Some(p) =>
        AppendChildAtSpec(st.sections, p, newSection);
      case None =>
    }
  }

  /** Every step keeps the scanner's state valid, given a physical line. */
  lemma StepValid(st: ScanState, rawLine: string, lines: seq<string>)
    requires ValidState(st) && '\n' !in rawLine
    ensures var r := Step(st, rawLine, lines);
      r.Ok? ==> ValidState(r.value)
  {
    var line := Strip(rawLine);
    StripKeepsOut(rawLine, '\n');
    if line == [] {
      CloseListValid(st);
    } else {
      match IsLikelyHeading(line, lines)
      case Err(_) =>
      case Ok(heading) =>
        if heading {
          PlaceHeadingValid(st, line, HeadingLevel(line));
        } else if !IsListLine(line) {
          CloseListValid(st);
          AddToCurrentValid(CloseList(st), ParagraphElement(line));
        }
    }
  }

  predicate PhysicalLines(rest: seq<string>) {
    forall k :: 0 <= k < |rest| ==> '\n' !in rest[k]
  }

  /** The scan of the remaining lines from state `st`; the first error ends it. */
  function Scan(st: ScanState, rest: seq<string>, lines: seq<string>): (r: Result<ScanState, Error>)
    requires ValidState(st) && PhysicalLines(rest)
    ensures r.Ok? ==> ValidState(r.value)
    decreases |rest|
  {
    if rest == [] then Ok(st)
    else match Step(st, rest[0], lines)
      case Err(e) => Err(e)
      case Ok(next) => StepValid(st, rest[0], lines); Scan(next, rest[1..], lines)
  }

  /** The first non-blank line, stripped: the title. */
  function FirstNonBlank(lines: seq<string>): Option<string> {
    if lines == [] then None
    else if Strip(lines[0]) != [] then Some(Strip(lines[0]))
    else FirstNonBlank(lines[1..])
  }

  /** The sections once the list still pending at the end is closed. */
  function FinalSections(st: ScanState): seq<ContentSection>
    requires ValidState(st)
  {
    if st.inList && st.listItems != [] && st.current.Some? then AddToCurrent(st, ListElement(st.listItems)).sections
    else st.sections
  }

  /** What `analyze_with_rules` returns: the title from all lines, and the
      sections from scanning every line after the first. */
  function RulesSpec(text: string): Result<ContentStructure, Error> {
    var lines := Split(text, '\n');
    match Scan(InitialState, lines[1..], lines)
      case Err(e) => Err(e)
      case Ok(st) => Ok(ContentStructure(FirstNonBlank(lines), None, FinalSections(st)))
  }

  // ------------------------------------------------ what the scan produces

  /** A line the scan turns into a new section: not blank, and taken for a
      heading. */
  predicate IsHeadingLine(rawLine: string, lines: seq<string>) {
    Strip(rawLine) != [] && IsLikelyHeading(Strip(rawLine), lines) == Ok(true)
  }

  function HeadingCount(rest: seq<string>, lines: seq<string>): nat {
    if rest == [] then 0
    else (if IsHeadingLine(rest[0], lines) then 1 else 0) + HeadingCount(rest[1..], lines)
  }

  /** Levels from 1 to 6, and every subsection deeper than its parent. */
  predicate WellShaped(secs: seq<ContentSection>) {
    LevelsWithin(secs, 1, 6) && ChildrenDeeper(secs)
  }

  lemma HeadingLevelRange(heading: string)
    ensures 1 <= HeadingLevel(heading) <= 6
  {
    if StartsWith(heading, "#") {
      assert heading[0] == heading[..1][0];
    }
  }

  lemma AddRootFacts(secs: seq<ContentSection>, x: ContentSection)
    requires WellShaped(secs) && x.subsections == [] && 1 <= x.level <= 6
    ensures WellShaped(secs + [x]) && SectionCount(secs + [x]) == SectionCount(secs) + 1
  {
    var r := secs + [x];
    assert forall i :: 0 <= i < |r| ==> (i < |secs| && r[i] == secs[i]) || r[i] == x;
    SectionCountAppend(secs, [x]);
    SectionCountSingle(x);
  }

  lemma AddChildFacts(secs: seq<ContentSection>, p: Path, x: ContentSection)
    requires ValidPath(secs, p) && WellShaped(secs)
    requires x.subsections == [] && 1 <= x.level <= 6 && x.level > At(secs, p).level
    ensures WellShaped(AppendChildAt(secs, p, x))
    ensures SectionCount(AppendChildAt(secs, p, x)) == SectionCount(secs) + 1
  {
    AppendChildAtSpec(secs, p, x);
    AppendChildAtLevels(secs, p, x, 1, 6);
    AppendChildAtDeeper(secs, p, x);
  }

  lemma AddToCurrentFacts(st: ScanState, e: ContentElement)
    requires ValidState(st) && WellShaped(st.sections)
    ensures WellShaped(AddToCurrent(st, e).sections)
    ensures SectionCount(AddToCurrent(st, e).sections) == SectionCount(st.sections)
  {
    if st.current.Some? {
      AppendElementAtSpec(st.sections, st.current.value, e);
      AppendElementAtLevels(st.sections, st.current.value, e, 1, 6);
      AppendElementAtDeeper(st.sections, st.current.value, e);
    }
  }

  lemma CloseListFacts(st: ScanState)
    requires ValidState(st) && WellShaped(st.sections)
    ensures WellShaped(CloseList(st).sections)
    ensures SectionCount(CloseList(st).sections) == SectionCount(st.sections)
  {
    if st.inList && st.listItems != [] {
      AddToCurrentFacts(st, ListElement(st.listItems));
    }
  }

  /** A heading adds exactly one section, below a shallower section or at
      the root, and keeps the tree well shaped. */
  lemma PlaceHeadingFacts(st: ScanState, line: string, level: int)
    requires ValidState(st) && WellShaped(st.sections) && 1 <= level <= 6
    ensures WellShaped(PlaceHeading(st, line, level).sections)
    ensures SectionCount(PlaceHeading(st, line, level).sections) == SectionCount(st.sections) + 1
  {
    var x := ContentSection(level, Some(line), [], []);
    if level == 1 {
      AddRootFacts(st.sections, x);
    } else if st.current.Some? && level > st.currentLevel {
      AddChildFacts(st.sections, st.current.value, x);
    } else {
      FindParentFound(st.sections, level);
      match FindParentSpec(st.sections, level)
      case Some(p) =>
        AddChildFacts(st.sections, p, x);
      case None =>
        AddRootFacts(st.sections, x);
    }
  }

  /** One line adds a section exactly when it is a heading line, keeps the
      tree well shaped, and can only fail with the ValueError of the
      heading test's lookup. */
  lemma StepFacts(st: ScanState, rawLine: string, lines: seq<string>)
    requires ValidState(st) && WellShaped(st.sections)
    ensures var r := Step(st, rawLine, lines);
      && (r.Ok? ==>
            WellShaped(r.value.sections)
            && SectionCount(r.value.sections) == SectionCount(st.sections) + (if IsHeadingLine(rawLine, lines) then 1 else 0))
      && (r.Err? ==> r.error == NotInList(Strip(rawLine)) && Strip(rawLine) !in lines)
  {
    var line := Strip(rawLine);
    if line == [] {
      CloseListFacts(st);
    } else {
      LikelyHeadingCases(line, lines);
      match IsLikelyHeading(line, lines)
      case Err(_) =>
      case Ok(heading) =>
        if heading {
          HeadingLevelRange(line);
          PlaceHeadingFacts(st, line, HeadingLevel(line));
        } else if !IsListLine(line) {
          CloseListFacts(st);
          CloseListValid(st);
          AddToCurrentFacts(CloseList(st), ParagraphElement(line));
        }
    }
  }

  /** The scan of the remaining lines adds one section per heading line,
      keeps the tree well shaped, and fails only with ValueError. */
  lemma {:induction false} ScanFacts(st: ScanState, rest: seq<string>, lines: seq<string>)
    requires ValidState(st) && PhysicalLines(rest) && WellShaped(st.sections)
    ensures var r := Scan(st, rest, lines);
      && (r.Ok? ==>
            WellShaped(r.value.sections)
            && SectionCount(r.value.sections) == SectionCount(st.sections) + HeadingCount(rest, lines))
      && (r.Err? ==> r.error.kind == ValueError)
    decreases |rest|
  {
    if rest != [] {
      StepFacts(st, rest[0], lines);
      match Step(st, rest[0], lines)
      case Err(_) =>
      case Ok(next) =>
        StepValid(st, rest[0], lines);
        ScanFacts(next, rest[1..], lines);
    }
  }

  // ---------------------------------------------------- what each line does

  /** The list element a pending run of list lines turns into when closed. */
  function PendingList(st: ScanState): seq<ContentElement> {
    if st.inList && st.listItems != [] then [ListElement(st.listItems)] else []
  }

  /** `r` is the scanner's tree with `extra` appended to the open section,
      or the tree unchanged (the elements dropped) when no section is open. */
  ghost predicate AddedToOpen(st: ScanState, r: seq<ContentSection>, extra: seq<ContentElement>) {
    match st.current
    case None => r == st.sections
    case Some(p) => ElementsAppended(st.sections, r, p, extra)
  }

  lemma AddToCurrentEffect(st: ScanState, e: ContentElement)
    requires ValidState(st)
    ensures AddedToOpen(st, AddToCurrent(st, e).sections, [e])
    ensures AddToCurrent(st, e).current == st.current
  {
    if st.current.Some? {
      AppendElementAtFrame(st.sections, st.current.value, e);
    }
  }

  /** Closing a list puts the pending list element, if any, into the open
      section (or drops it), and clears the list state. */
  lemma CloseListEffect(st: ScanState)
    requires ValidState(st)
    ensures var r := CloseList(st);
      && AddedToOpen(st, r.sections, PendingList(st))
      && r.current == st.current && r.currentLevel == st.currentLevel
      && !r.inList && r.listItems == []
  {
    if st.inList && st.listItems != [] {
      AddToCurrentEffect(st, ListElement(st.listItems));
    } else if st.current.Some? {
      var p := st.current.value;
      assert ElementsAppended(st.sections, st.sections, p, []);
    }
  }

  /** A blank line closes a pending list into the open section. */
  lemma StepBlankLine(st: ScanState, rawLine: string, lines: seq<string>)
    requires ValidState(st) && Strip(rawLine) == []
    ensures var r := Step(st, rawLine, lines);
      && r.Ok?
      && AddedToOpen(st, r.value.sections, PendingList(st))
      && r.value.current == st.current && r.value.currentLevel == st.currentLevel
      && !r.value.inList && r.value.listItems == []
  {
    CloseListEffect(st);
  }

  /** A list line that is not a heading leaves the tree alone and joins the
      pending list. */
  lemma StepListLine(st: ScanState, rawLine: string, lines: seq<string>)
    requires ValidState(st) && Strip(rawLine) != []
    requires IsLikelyHeading(Strip(rawLine), lines) == Ok(false) && IsListLine(Strip(rawLine))
    ensures var r := Step(st, rawLine, lines);
      && r.Ok?
      && r.value.sections == st.sections
      && r.value.current == st.current && r.value.currentLevel == st.currentLevel
      && r.value.inList && r.value.listItems == st.listItems + [Strip(rawLine)]
  {
  }

  /** Any other line closes a pending list and is added, as a paragraph after
      that list, to the open section; without an open section both are
      dropped. */
  lemma StepParagraphLine(st: ScanState, rawLine: string, lines: seq<string>)
    requires ValidState(st) && Strip(rawLine) != []
    requires IsLikelyHeading(Strip(rawLine), lines) == Ok(false) && !IsListLine(Strip(rawLine))
    ensures var r := Step(st, rawLine, lines);
      && r.Ok?
      && AddedToOpen(st, r.value.sections, PendingList(st) + [ParagraphElement(Strip(rawLine))])
      && r.value.current == st.current && r.value.currentLevel == st.currentLevel
      && !r.value.inList && r.value.listItems == []
  {
    var line := Strip(rawLine);
    var closed := CloseList(st);
    CloseListEffect(st);
    CloseListValid(st);
    AddToCurrentEffect(closed, ParagraphElement(line));
    if st.current.Some? {
      ElementsAppendedTrans(st.sections, closed.sections, AddToCurrent(closed, ParagraphElement(line)).sections,
                            st.current.value, PendingList(st), [ParagraphElement(line)]);
    }
  }

  /** Where a heading of level `level` goes: its new, empty section becomes
      the open one at an address under the parent each branch chooses (the
      root list for level 1 or when the search finds no parent), as the last
      child there; every existing section keeps its address, level, title
      and elements; the list state is untouched. */
  ghost predicate HeadingPlaced(st: ScanState, r: ScanState, line: string, level: int)
    requires ValidState(st)
  {
    && r.current.Some? && ValidPath(r.sections, r.current.value)
    && At(r.sections, r.current.value) == ContentSection(level, Some(line), [], [])
    && r.currentLevel == level && r.inList == st.inList && r.listItems == st.listItems
    && (forall q :: ValidPath(st.sections, q) ==>
          && ValidPath(r.sections, q)
          && At(r.sections, q).level == At(st.sections, q).level
          && At(r.sections, q).title == At(st.sections, q).title
          && At(r.sections, q).elements == At(st.sections, q).elements)
    && (level == 1 ==> r.current.value == [|st.sections|])
    && (level != 1 && st.current.Some? && level > st.currentLevel ==>
          r.current.value == st.current.value + [|At(st.sections, st.current.value).subsections|])
    && (level != 1 && !(st.current.Some? && level > st.currentLevel) ==>
          match FindParentSpec(st.sections, level)
          case Some(p) => ValidPath(st.sections, p) && r.current.value == p + [|At(st.sections, p).subsections|]
          case None => r.current.value == [|st.sections|])
  }

  lemma AddRootWhere(st: ScanState, x: ContentSection)
    requires ValidState(st)
    ensures var r := st.sections + [x];
      && ValidPath(r, [|st.sections|]) && At(r, [|st.sections|]) == x
      && forall q :: ValidPath(st.sections, q) ==> ValidPath(r, q) && At(r, q) == At(st.sections, q)
  {
    forall q | ValidPath(st.sections, q)
      ensures ValidPath(st.sections + [x], q) && At(st.sections + [x], q) == At(st.sections, q)
    {
      SubforestKeeps(st.sections, [x], q);
    }
  }

  lemma AddChildWhere(st: ScanState, p: Path, x: ContentSection)
    requires ValidState(st) && ValidPath(st.sections, p)
    ensures var r := AppendChildAt(st.sections, p, x);
      var k := |At(st.sections, p).subsections|;
      && ValidPath(r, p + [k]) && At(r, p + [k]) == x
      && forall q :: ValidPath(st.sections, q) ==>
           && ValidPath(r, q)
           && At(r, q).level == At(st.sections, q).level
           && At(r, q).title == At(st.sections, q).title
           && At(r, q).elements == At(st.sections, q).elements
  {
    AppendChildAtSpec(st.sections, p, x);
    forall q | ValidPath(st.sections, q)
      ensures ValidPath(AppendChildAt(st.sections, p, x), q)
      ensures At(AppendChildAt(st.sections, p, x), q).level == At(st.sections, q).level
      ensures At(AppendChildAt(st.sections, p, x), q).title == At(st.sections, q).title
      ensures At(AppendChildAt(st.sections, p, x), q).elements == At(st.sections, q).elements
    {
      AppendChildAtKeeps(st.sections, p, x, q);
    }
  }

  lemma PlaceHeadingWhere(st: ScanState, line: string, level: int)
    requires ValidState(st)
    ensures HeadingPlaced(st, PlaceHeading(st, line, level), line, level)
  {
    var x := ContentSection(level, Some(line), [], []);
    if level == 1 {
      AddRootWhere(st, x);
    } else if st.current.Some? && level > st.currentLevel {
      AddChildWhere(st, st.current.value, x);
    } else {
      FindParentFound(st.sections, level);
      match FindParentSpec(st.sections, level)
      case Some(p) =>
        AddChildWhere(st, p, x);
      case None =>
        AddRootWhere(st, x);
    }
  }

  /** A heading line gets a section of its estimated level, placed as
      `HeadingPlaced` says. */
  lemma StepHeadingLine(st: ScanState, rawLine: string, lines: seq<string>)
    requires ValidState(st) && Strip(rawLine) != []
    requires IsLikelyHeading(Strip(rawLine), lines) == Ok(true)
    ensures var r := Step(st, rawLine, lines);
      && r.Ok?
      && 1 <= HeadingLevel(Strip(rawLine)) <= 6
      && HeadingPlaced(st, r.value, Strip(rawLine), HeadingLevel(Strip(rawLine)))
  {
    HeadingLevelRange(Strip(rawLine));
    PlaceHeadingWhere(st, Strip(rawLine), HeadingLevel(Strip(rawLine)));
  }

  /** At the end, a pending list goes into the open section, or is dropped
      when there is none. */
  lemma FinalSectionsEffect(st: ScanState)
    requires ValidState(st)
    ensures AddedToOpen(st, FinalSections(st), PendingList(st))
  {
    CloseListEffect(st);
  }

  /** The title is the first line that is not blank, stripped. */
  lemma {:induction false} FirstNonBlankSpec(lines: seq<string>)
    ensures var t := FirstNonBlank(lines);
      && (t.None? <==> forall k :: 0 <= k < |lines| ==> Strip(lines[k]) == [])
      && (t.Some? ==> exists i :: 0 <= i < |lines| && t.value == Strip(lines[i]) && t.value != []
                                 && forall k :: 0 <= k < i ==> Strip(lines[k]) == [])
  {
    if lines != [] && Strip(lines[0]) == [] {
      FirstNonBlankSpec(lines[1..]);
      var t := FirstNonBlank(lines);
      assert forall k :: 1 <= k < |lines| ==> lines[k] == lines[1..][k - 1];
      if t.Some? {
        var i :| 0 <= i < |lines[1..]| && t.value == Strip(lines[1..][i]) && t.value != []
                 && forall k :: 0 <= k < i ==> Strip(lines[1..][k]) == [];
        assert forall k :: 0 <= k < i + 1 ==> Strip(lines[k]) == [];
      }
    }
  }

  /** `analyze_with_rules`: the title is the first non-blank line, there is
      no subtitle, the sections form a well-shaped tree with one section
      per heading line after the first line (none without headings), and
      the only exception is the ValueError of the heading test. */
  lemma RulesResult(text: string)
    ensures var lines := Split(text, '\n');
      var r := RulesSpec(text);
      && (r.Ok? ==>
            r.value.title == FirstNonBlank(lines) && r.value.subtitle.None?
            && WellShaped(r.value.sections)
            && SectionCount(r.value.sections) == HeadingCount(lines[1..], lines)
            && (HeadingCount(lines[1..], lines) == 0 ==> r.value.sections == []))
      && (r.Err? ==> r.error.kind == ValueError)
  {
    var lines := Split(text, '\n');
    ScanFacts(InitialState, lines[1..], lines);
    match Scan(InitialState, lines[1..], lines)
    case Err(_) =>
    case Ok(st) =>
      if st.inList && st.listItems != [] && st.current.Some? {
        AddToCurrentFacts(st, ListElement(st.listItems));
      }
  }

  /** The result's sections are the scan's tree after the pending list, if
      any, is closed into the open section; the analysis fails exactly when
      the scan does. */
  lemma RulesSections(text: string)
    ensures var lines := Split(text, '\n');
      var scan := Scan(InitialState, lines[1..], lines);
      var r := RulesSpec(text);
      && (r.Ok? <==> scan.Ok?)
      && (r.Ok? ==> AddedToOpen(scan.value, r.value.sections, PendingList(scan.value)))
  {
    var lines := Split(text, '\n');
    match Scan(InitialState, lines[1..], lines)
    case Err(_) =>
    case Ok(st) =>
      FinalSectionsEffect(st);
  }

  /** A list element gives back its lines when split at newlines. */
  lemma ListRoundTrip(st: ScanState)
    requires ValidState(st) && st.inList
    ensures Split(ListElement(st.listItems).content, '\n') == st.listItems
  {
    SplitJoin(st.listItems, '\n');
  }

  /** An indented line that passes no quick heading test is looked up
      stripped among the unstripped lines, is not found, and the analysis
      raises ValueError. */
  lemma IndentedLineRaises()
    ensures RulesSpec("T\n x") == Err(NotInList("x"))
  {
    var lines := Split("T\n x", '\n');
    ExampleLines();
    ExampleStep(lines);
    assert lines[1..] == [" x"];
    assert Scan(InitialState, [" x"], lines) == Err(NotInList("x"));
  }

  lemma ExampleLines()
    ensures Split("T\n x", '\n') == ["T", " x"]
  {
    assert "T\n x" == "T" + ['\n'] + " x";
    SplitAtSeparator("T", " x", '\n');
    SplitNoSeparator(" x", '\n');
  }

  /** The indented line strips to a lower-case line missing from `lines`. */
  lemma ExampleStep(lines: seq<string>)
    requires lines == ["T", " x"]
    ensures Step(InitialState, " x", lines) == Err(NotInList("x"))
  {
    assert LStrip(" x") == "x";
    assert Strip(" x") == "x";
    assert !IsUpperChar('x');
    assert "x" !in lines;
    assert IsLikelyHeading("x", lines) == Err(NotInList("x"));
  }

  /** The heading branch of the scan: the level, then the placement. */
  method AddHeading(st: ScanState, line: string) returns (next: ScanState)
    requires ValidState(st)
    ensures next == PlaceHeading(st, line, HeadingLevel(line))
  {
    var level := EstimateHeadingLevel(line);
    var newSection := ContentSection(level, Some(line), [], []);
    next := st;
    if level == 1 {
      next := next.(sections := st.sections + [newSection]);
      next := next.(current := Some([|next.sections| - 1]), currentLevel := level);
    } else if st.current.Some? && level > st.currentLevel {
      var k := |At(st.sections, st.current.value).subsections|;
      next := next.(sections := AppendChildAt(st.sections, st.current.value, newSection));
      next := next.(current := Some(st.current.value + [k]), currentLevel := level);
    } else {
      var parent := FindParentSection(st.sections, level);
      FindParentFound(st.sections, level);
      if parent.Some? {
        var k := |At(st.sections, parent.value).subsections|;
        next := next.(sections := AppendChildAt(st.sections, parent.value, newSection));
        next := next.(current := Some(parent.value + [k]));
      } else {
        next := next.(sections := st.sections + [newSection]);
        next := next.(current := Some([|next.sections| - 1]));
      }
      next := next.(currentLevel := level);
    }
  }

  /** The body of the scan loop for one line. */
  method ScanLine(st: ScanState, rawLine: string, lines: seq<string>) returns (r: Result<ScanState, Error>)
    requires ValidState(st)
    ensures r == Step(st, rawLine, lines)
  {
    var next := st;
    var line := Strip(rawLine);
    if line == [] {
      if next.inList && next.listItems != [] {
        if next.current.Some? {
          next := next.(sections := AppendElementAt(next.sections, next.current.value, ListElement(next.listItems)));
        }
        next := next.(listItems := [], inList := false);
      }
      return Ok(next);
    }
    var heading := IsLikelyHeading(line, lines);
    if heading.Err? {
      return Err(heading.error);
    }
    if heading.value {
      next := AddHeading(st, line);
    } else if IsListLine(line) {
      next := next.(inList := true, listItems := next.listItems + [line]);
    } else {
      CloseListValid(st);
      if next.inList && next.listItems != [] {
        if next.current.Some? {
          next := next.(sections := AppendElementAt(next.sections, next.current.value, ListElement(next.listItems)));
        }
        next := next.(listItems := [], inList := false);
      }
      if next.current.Some? {
        next := next.(sections := AppendElementAt(next.sections, next.current.value, ParagraphElement(line)));
      }
    }
    r := Ok(next);
  }

  /** The title loop: the first line that is not blank, stripped. */
  method FindTitle(lines: seq<string>) returns (title: Option<string>)
    ensures title == FirstNonBlank(lines)
  {
    title := None;
    for i := 0 to |lines|
      invariant title.None? && FirstNonBlank(lines[i..]) == FirstNonBlank(lines)
    {
      assert lines[i..][1..] == lines[i + 1..];
      if Strip(lines[i]) != [] {
        title := Some(Strip(lines[i]));
        return;
      }
    }
    assert lines[|lines|..] == [];
  }

  /** The loop over the lines after the first: one step per line, and the
      first exception ends it. */
  method ScanLines(rest: seq<string>, lines: seq<string>) returns (r: Result<ScanState, Error>)
    requires PhysicalLines(rest)
    ensures r == Scan(InitialState, rest, lines)
  {
    var st := InitialState;
    for n := 0 to |rest|
      invariant ValidState(st)
      invariant Scan(st, rest[n..], lines) == Scan(InitialState, rest, lines)
    {
      assert rest[n..][0] == rest[n] && rest[n..][1..] == rest[n + 1..];
      StepValid(st, rest[n], lines);
      var stepped := ScanLine(st, rest[n], lines);
      if stepped.Err? {
        return Err(stepped.error);
      }
      st := stepped.value;
    }
    r := Ok(st);
  }

  method AnalyzeWithRules(text: string) returns (r: Result<ContentStructure, Error>)
    ensures r == RulesSpec(text)
  {
    var lines := Split(text, '\n');
    var title := FindTitle(lines);
    var scanned := ScanLines(lines[1..], lines);
    if scanned.Err? {
      return Err(scanned.error);
    }
    var st := scanned.value;
    var sections := st.sections;
    if st.inList && st.listItems != [] && st.current.Some? {
      sections := AppendElementAt(sections, st.current.value, ListElement(st.listItems));
    }
    r := Ok(ContentStructure(title, None, sections));
  }

  // ---------------------------------------------- analyze_with_llm and analyze_content

  /** The options `analyze_content` reads, with their defaults. */
  datatype AnalysisOptions = AnalysisOptions(analysisMethod: string := "llm")

  /** The exception `analyze_with_llm` raises when the model chain fails
      with `e`: a connection error when the lower-cased message mentions a
      connection or a timeout, a response error otherwise. */
  function ClassifyLlmFailure(e: Error): (c: Error)
    ensures c.kind == LlmConnectionError <==> Contains(Lower(e.message), "connection") || Contains(Lower(e.message), "timeout")
    ensures c.kind == LlmConnectionError || c.kind == LlmResponseError
    ensures EndsWith(c.message, e.message)
  {
    var m := Lower(e.message);
    if Contains(m, "connection") || Contains(m, "timeout") then
      Error(LlmConnectionError, "Failed to connect to LLM: " + e.message)
    else
      Error(LlmResponseError, "Invalid response from LLM: " + e.message)
  }

  /** One run of `analyze_with_llm` whose model chain has outcome `call`. */
  function LlmAttempt(call: Result<ContentStructure, Error>): Result<ContentStructure, Error> {
    match call
    case Ok(cs) => Ok(cs)
    case Err(e) => Err(ClassifyLlmFailure(e))
  }

  /** `analyze_with_llm` under `retry(max_attempts=2)` for the two LLM
      error classes: every failure is one of them, so a failed first run is
      followed by a second, whose outcome is final. */
  function LlmSpec(calls: seq<Result<ContentStructure, Error>>): Result<ContentStructure, Error>
    requires |calls| >= 2
  {
    if calls[0].Ok? then calls[0] else LlmAttempt(calls[1])
  }

  /** The `retry` loop around `analyze_with_llm`; `calls[k]` is the outcome
      of the model chain on run `k`. The sleeps are returned. */
  method AnalyzeWithLlm(calls: seq<Result<ContentStructure, Error>>) returns (r: Result<ContentStructure, Error>, delays: seq<real>)
    requires |calls| >= 2
    ensures r == LlmSpec(calls)
    ensures delays == if calls[0].Ok? then [] else [1.0]
  {
    var runs := [LlmAttempt(calls[0]), LlmAttempt(calls[1])];
    var retried := {LlmConnectionError, LlmResponseError};
    forall k | 0 <= k < 2 && runs[k].Err?
      ensures Catches(retried, runs[k].error.kind)
    {
      assert runs[k].error.kind in retried && IsA(runs[k].error.kind, runs[k].error.kind);
    }
    var res, n, ds := Retry(2, 1.0, 2.0, retried, runs);
    if runs[0].Err? {
      assert n == 2;
    } else {
      assert n == 1;
    }
    delays := ds;
    match res
    case Ok(v) =>
      r := Ok(v.value);
    case Err(e) =>
      r := Err(e);
  }

  /** What `analyze_content` returns: the chosen analysis of the joined
      text, with any exception turned into a ContentAnalysisError. */
  function AnalyzeContentSpec(ets: seq<ExtractedText>, options: AnalysisOptions,
                              calls: seq<Result<ContentStructure, Error>>): Result<ContentStructure, Error>
    requires |calls| >= 2
  {
    WrapErrors(ContentAnalysisError, "Failed to analyze content",
      if options.analysisMethod == "llm" then LlmSpec(calls) else RulesSpec(CombineExtractedText(ets)))
  }

  /** `analyze_content`; the model chain is only consulted on the LLM path. */
  method AnalyzeContent(ets: seq<ExtractedText>, options: AnalysisOptions,
                        calls: seq<Result<ContentStructure, Error>>) returns (r: Result<ContentStructure, Error>)
    requires |calls| >= 2
    ensures r == AnalyzeContentSpec(ets, options, calls)
  {
    var combined := CombineExtractedText(ets);
    var inner: Result<ContentStructure, Error>;
    if options.analysisMethod == "llm" {
      var delays;
      inner, delays := AnalyzeWithLlm(calls);
    } else {
      inner := AnalyzeWithRules(combined);
    }
    r := WrapErrors(ContentAnalysisError, "Failed to analyze content", inner);
  }

  /** Every failure of `analyze_content` is a ContentAnalysisError whose
      message carries the prefix; on the rule path the wrapped failure is
      the ValueError of the heading lookup, and a success is the rule
      analysis itself. On the LLM path a failure means both runs failed. */
  lemma AnalyzeContentResult(ets: seq<ExtractedText>, options: AnalysisOptions,
                             calls: seq<Result<ContentStructure, Error>>)
    requires |calls| >= 2
    ensures var r := AnalyzeContentSpec(ets, options, calls);
      && (r.Err? ==> r.error.kind == ContentAnalysisError && StartsWith(r.error.message, "Failed to analyze content: "))
      && (options.analysisMethod == "llm" ==>
            (r.Err? <==> calls[0].Err? && calls[1].Err?)
            && (r.Ok? ==> r.value == (if calls[0].Ok? then calls[0].value else calls[1].value)))
      && (options.analysisMethod != "llm" ==>
            (r.Ok? <==> RulesSpec(CombineExtractedText(ets)).Ok?)
            && (r.Ok? ==> r.value == RulesSpec(CombineExtractedText(ets)).value))
  {
    var r := AnalyzeContentSpec(ets, options, calls);
    if r.Err? {
      var inner := if options.analysisMethod == "llm" then LlmSpec(calls) else RulesSpec(CombineExtractedText(ets));
      assert r.error.message == "Failed to analyze content" + ": " + inner.error.message;
    }
  }
}
