/** The hierarchy pass of src/llm_analysis/structure_detection.py: level
    normalisation, pre-order flattening, the rebuild by level with its
    backward parent scan, the LLM refinement's fence extraction and
    fallback, title promotion and the depth-based level reset, and
    `detect_structure` around them.

    Sections are values. The source changes section objects in place, and
    the list copy in `refine_section_hierarchy` is shallow, so the caller's
    own top-level sections are changed too; the methods return that
    caller's view next to the result. */
module StructureDetection {
  import opened Wrappers
  import opened Exceptions
  import opened Builtins
  import opened Sorting
  import opened Models
  import opened SectionPaths
  import opened ErrorHandling

  // ------------------------------------------------------- flatten_sections

  /** Every section of the forest in pre-order: a section, then its
      subtree, then its later siblings. */
  function Flatten(secs: seq<ContentSection>): seq<ContentSection> {
    if secs == [] then [] else [secs[0]] + Flatten(secs[0].subsections) + Flatten(secs[1..])
  }

  lemma {:induction false} FlattenAppend(a: seq<ContentSection>, b: seq<ContentSection>)
    ensures Flatten(a + b) == Flatten(a) + Flatten(b)
  {
    if a != [] {
      calc {
        Flatten(a + b);
        { assert (a + b)[0] == a[0] && (a + b)[1..] == a[1..] + b; }
        [a[0]] + Flatten(a[0].subsections) + Flatten(a[1..] + b);
        { FlattenAppend(a[1..], b); }
        [a[0]] + Flatten(a[0].subsections) + (Flatten(a[1..]) + Flatten(b));
      }
    } else {
      assert a + b == b;
    }
  }

  /** Each section is listed once: the list is as long as the forest. */
  lemma {:induction false} FlattenCount(secs: seq<ContentSection>)
    ensures |Flatten(secs)| == SectionCount(secs)
  {
    if secs != [] {
      FlattenCount(secs[0].subsections);
      FlattenCount(secs[1..]);
    }
  }

  /** Pre-order around the `i`-th root: the earlier roots' subtrees, the
      root itself, its subtree, then the later roots' subtrees. */
  lemma FlattenSplit(secs: seq<ContentSection>, i: nat)
    requires i < |secs|
    ensures Flatten(secs) == Flatten(secs[..i]) + ([secs[i]] + Flatten(secs[i].subsections) + Flatten(secs[i + 1..]))
  {
    var tail := secs[i..];
    assert Flatten(secs) == Flatten(secs[..i]) + Flatten(tail) by {
      assert secs[..i] + tail == secs;
      FlattenAppend(secs[..i], tail);
    }
    assert Flatten(tail) == [secs[i]] + Flatten(secs[i].subsections) + Flatten(secs[i + 1..]) by {
      assert tail[0] == secs[i] && tail[1..] == secs[i + 1..];
    }
  }

  /** Every section of the tree is in the list. */
  lemma {:induction false} FlattenContains(secs: seq<ContentSection>, p: Path)
    requires ValidPath(secs, p)
    ensures At(secs, p) in Flatten(secs)
    decreases |p|
  {
    FlattenSplit(secs, p[0]);
    if |p| > 1 {
      FlattenContains(secs[p[0]].subsections, p[1..]);
    }
  }

  /** A forest without subsections is its own pre-order list. */
  lemma {:induction false} FlattenFlat(secs: seq<ContentSection>)
    requires forall k :: 0 <= k < |secs| ==> secs[k].subsections == []
    ensures Flatten(secs) == secs
  {
    if secs != [] {
      FlattenFlat(secs[1..]);
    }
  }

  /** The recursive `_flatten` helper: appends the pre-order list of
      `sections` to `flat`. */
  lemma FlattenSnoc(secs: seq<ContentSection>, x: ContentSection)
    ensures Flatten(secs + [x]) == Flatten(secs) + ([x] + Flatten(x.subsections))
  {
    FlattenAppend(secs, [x]);
    assert [x][1..] == [];
  }

  /** Flattening one more top-level section of a prefix, with an accumulated list in front. */
  lemma FlattenPrefixStep(flat: seq<ContentSection>, sections: seq<ContentSection>, i: nat)
    requires i < |sections|
    ensures flat + Flatten(sections[..i + 1])
      == (flat + Flatten(sections[..i]) + [sections[i]]) + Flatten(sections[i].subsections)
  {
    FlattenSnoc(sections[..i], sections[i]);
    assert sections[..i + 1] == sections[..i] + [sections[i]];
  }

  method FlattenInto(sections: seq<ContentSection>, flat: seq<ContentSection>) returns (r: seq<ContentSection>)
    ensures r == flat + Flatten(sections)
    decreases sections
  {
    r := flat;
    for i := 0 to |sections|
      invariant r == flat + Flatten(sections[..i])
    {
      FlattenPrefixStep(flat, sections, i);
      r := r + [sections[i]];
      r := FlattenInto(sections[i].subsections, r);
    }
    assert sections[..|sections|] == sections;
  }

  method FlattenSections(sections: seq<ContentSection>) returns (flat: seq<ContentSection>)
    ensures flat == Flatten(sections)
  {
    flat := FlattenInto(sections, []);
  }

  // ----------------------------------- normalize_section_levels, adjust_section_level

  /** Every level of the forest moved by `d`. */
  function ShiftLevels(secs: seq<ContentSection>, d: int): (r: seq<ContentSection>)
    ensures |r| == |secs|
  {
    if secs == [] then []
    else [secs[0].(level := secs[0].level + d, subsections := ShiftLevels(secs[0].subsections, d))]
         + ShiftLevels(secs[1..], d)
  }

  lemma {:induction false} ShiftLevelsAt(secs: seq<ContentSection>, d: int, i: nat)
    requires i < |secs|
    ensures ShiftLevels(secs, d)[i] == secs[i].(level := secs[i].level + d, subsections := ShiftLevels(secs[i].subsections, d))
  {
    if i > 0 {
      ShiftLevelsAt(secs[1..], d, i - 1);
    }
  }

  lemma {:induction false} ShiftLevelsAppend(a: seq<ContentSection>, b: seq<ContentSection>, d: int)
    ensures ShiftLevels(a + b, d) == ShiftLevels(a, d) + ShiftLevels(b, d)
  {
    if a != [] {
      assert (a + b)[0] == a[0] && (a + b)[1..] == a[1..] + b;
      ShiftLevelsAppend(a[1..], b, d);
      var x := a[0].(level := a[0].level + d, subsections := ShiftLevels(a[0].subsections, d));
      assert ShiftLevels(a + b, d) == [x] + ShiftLevels(a[1..] + b, d);
    } else {
      assert a + b == b;
    }
  }

  /** The shifted forest has the same addresses; at each, the level is
      moved by `d` and the title, elements and number of children stay. */
  lemma {:induction false} ShiftLevelsPath(secs: seq<ContentSection>, d: int, p: Path)
    ensures ValidPath(ShiftLevels(secs, d), p) <==> ValidPath(secs, p)
    ensures ValidPath(secs, p) ==>
      var s, t := At(secs, p), At(ShiftLevels(secs, d), p);
      t.level == s.level + d && t.title == s.title && t.elements == s.elements
      && |t.subsections| == |s.subsections|
    decreases |p|
  {
    if |p| > 0 && p[0] < |secs| {
      ShiftLevelsAt(secs, d, p[0]);
      if |p| > 1 {
        ShiftLevelsPath(secs[p[0]].subsections, d, p[1..]);
      }
    }
  }

  /** Shifting by `a` then by `b` is shifting by `a + b`, and shifting by 0
      changes nothing: a shift by `-d` undoes a shift by `d`. */
  lemma {:induction false} ShiftLevelsCompose(secs: seq<ContentSection>, a: int, b: int)
    ensures ShiftLevels(ShiftLevels(secs, a), b) == ShiftLevels(secs, a + b)
    ensures ShiftLevels(secs, 0) == secs
  {
    if secs != [] {
      ShiftLevelsCompose(secs[0].subsections, a, b);
      ShiftLevelsCompose(secs[1..], a, b);
    }
  }

  /** `adjust_section_level` on one section, recursively. */
  method AdjustSectionLevel(section: ContentSection, adjustBy: int) returns (s: ContentSection)
    ensures [s] == ShiftLevels([section], adjustBy)
    decreases section
  {
    var subsections: seq<ContentSection> := [];
    for i := 0 to |section.subsections|
      invariant subsections == ShiftLevels(section.subsections[..i], adjustBy)
    {
      var sub := AdjustSectionLevel(section.subsections[i], adjustBy);
      assert section.subsections[..i + 1] == section.subsections[..i] + [section.subsections[i]];
      ShiftLevelsAppend(section.subsections[..i], [section.subsections[i]], adjustBy);
      subsections := subsections + [sub];
    }
    assert section.subsections[..|section.subsections|] == section.subsections;
    s := section.(level := section.level + adjustBy, subsections := subsections);
    assert [section][1..] == [];
  }

  /** `min(section.level for section in sections)`. */
  function MinLevel(secs: seq<ContentSection>): (m: int)
    requires secs != []
    ensures exists k :: 0 <= k < |secs| && secs[k].level == m
    ensures forall k :: 0 <= k < |secs| ==> m <= secs[k].level
  {
    if |secs| == 1 then secs[0].level
    else Min(secs[0].level, MinLevel(secs[1..]))
  }

  /** `normalize_section_levels`: when the top-level sections do not start
      at level 1, the whole forest is shifted so that they do. */
  function NormalizeLevels(secs: seq<ContentSection>): seq<ContentSection> {
    if secs == [] || MinLevel(secs) == 1 then secs
    else ShiftLevels(secs, 1 - MinLevel(secs))
  }

  /** After normalisation the smallest top-level level is 1, every level
      moved by the same amount, and normalising again changes nothing. */
  lemma NormalizeResult(secs: seq<ContentSection>)
    requires secs != []
    ensures var r := NormalizeLevels(secs);
      && MinLevel(r) == 1
      && (forall p :: ValidPath(r, p) <==> ValidPath(secs, p))
      && (forall p :: ValidPath(secs, p) ==> At(r, p).level == At(secs, p).level + 1 - MinLevel(secs))
      && NormalizeLevels(r) == r
  {
    var d := 1 - MinLevel(secs);
    var r := NormalizeLevels(secs);
    if MinLevel(secs) != 1 {
      forall k | 0 <= k < |secs| ensures r[k].level == secs[k].level + d {
        ShiftLevelsAt(secs, d, k);
      }
      var k :| 0 <= k < |secs| && secs[k].level == MinLevel(secs);
      assert r[k].level == 1;
    }
    forall p
      ensures ValidPath(r, p) <==> ValidPath(secs, p)
      ensures ValidPath(secs, p) ==> At(r, p).level == At(secs, p).level + d
    {
      if MinLevel(secs) != 1 {
        ShiftLevelsPath(secs, d, p);
      }
    }
  }

  method NormalizeSectionLevels(sections: seq<ContentSection>) returns (r: seq<ContentSection>)
    ensures r == NormalizeLevels(sections)
  {
    r := sections;
    if sections == [] {
      return;
    }
    var minLevel := MinLevel(sections);
    if minLevel != 1 {
      var adjustLevel := 1 - minLevel;
      r := [];
      for i := 0 to |sections|
        invariant r == ShiftLevels(sections[..i], adjustLevel)
      {
        var s := AdjustSectionLevel(sections[i], adjustLevel);
        assert sections[..i + 1] == sections[..i] + [sections[i]];
        ShiftLevelsAppend(sections[..i], [sections[i]], adjustLevel);
        r := r + [s];
      }
      assert sections[..|sections|] == sections;
    }
  }

  // ------------------------------------------------ find_parent_for_section

  /** The ValueError `list.index` raises for a section that is not in the
      list (the section's printed form is not modelled). */
  const SectionNotInList := Error(ValueError, "section is not in list")

  /** The nearest index below `below` whose section has level `target`. */
  function LastAtLevel(all: seq<ContentSection>, below: nat, target: int): (r: Option<nat>)
    requires below <= |all|
    ensures r.Some? ==>
      r.value < below && all[r.value].level == target
      && forall j :: r.value < j < below ==> all[j].level != target
    ensures r.None? ==> forall j :: 0 <= j < below ==> all[j].level != target
  {
    if below == 0 then None
    else if all[below - 1].level == target then Some(below - 1)
    else LastAtLevel(all, below - 1, target)
  }

  /** `find_parent_for_section`: the parent is given by its position in the
      pre-order list of `secs`, which identifies the section object. */
  function FindParentForSpec(secs: seq<ContentSection>, section: ContentSection): Result<Option<nat>, Error> {
    if section.level <= 1 then Ok(None)
    else
      var all := Flatten(secs);
      match IndexOf(all, section)
      case None => Err(SectionNotInList)
      case Some(currentIndex) => Ok(LastAtLevel(all, currentIndex, section.level - 1))
  }

  /** None at level 1 or below; otherwise a ValueError exactly when the
      section is not in the tree, and else the nearest earlier pre-order
      entry one level up, before the section's first occurrence. */
  lemma FindParentForResult(secs: seq<ContentSection>, section: ContentSection)
    ensures var r := FindParentForSpec(secs, section);
      var all := Flatten(secs);
      && (section.level <= 1 ==> r == Ok(None))
      && (section.level > 1 ==> (r.Err? <==> section !in all))
      && (r.Err? ==> r.error.kind == ValueError)
      && (r.Ok? && r.value.Some? ==>
            exists c :: 0 <= c < |all| && all[c] == section && section !in all[..c]
              && r.value.value < c && all[r.value.value].level == section.level - 1
              && forall j :: r.value.value < j < c ==> all[j].level != section.level - 1)
  {
  }

  method FindParentForSection(secs: seq<ContentSection>, section: ContentSection) returns (r: Result<Option<nat>, Error>)
    ensures r == FindParentForSpec(secs, section)
  {
    if section.level <= 1 {
      return Ok(None);
    }
    var allSections := FlattenSections(secs);
    var found := IndexOf(allSections, section);
    if found.None? {
      return Err(SectionNotInList);
    }
    var parent := ScanBack(allSections, found.value, section.level - 1);
    return Ok(parent);
  }

  /** The backward loop `for i in range(current_index - 1, -1, -1)`. */
  method ScanBack(all: seq<ContentSection>, currentIndex: nat, targetLevel: int) returns (r: Option<nat>)
    requires currentIndex <= |all|
    ensures r == LastAtLevel(all, currentIndex, targetLevel)
  {
    for i := currentIndex downto 0
      invariant LastAtLevel(all, i, targetLevel) == LastAtLevel(all, currentIndex, targetLevel)
    {
      if all[i].level == targetLevel {
        return Some(i);
      }
    }
    return None;
  }

  // ---------------------------------------------------- reorganize_sections

  /** The sort key `(s.level, all_sections.index(s))`. */
  function PositionKey(all: seq<ContentSection>): ContentSection -> Key {
    (s: ContentSection) => Key(s.level, match IndexOf(all, s) case Some(i) => i case None => -1)
  }

  /** `section.subsections = []` on each section. */
  function Cleared(secs: seq<ContentSection>): (r: seq<ContentSection>)
    ensures |r| == |secs|
    ensures forall k :: 0 <= k < |secs| ==> r[k] == secs[k].(subsections := [])
  {
    seq(|secs|, k requires 0 <= k < |secs| => secs[k].(subsections := []))
  }

  /** The level-1 sections, in order. */
  function LevelOne(secs: seq<ContentSection>): (r: seq<ContentSection>)
    ensures forall k :: 0 <= k < |r| ==> r[k].level == 1
  {
    if secs == [] then []
    else (if secs[0].level == 1 then [secs[0]] else []) + LevelOne(secs[1..])
  }

  predicate AnyAboveOne(secs: seq<ContentSection>) {
    exists k :: 0 <= k < |secs| && secs[k].level > 1
  }

  /** The level-1 sections of the pre-order list `all`, in sorted order. */
  function SortedRoots(all: seq<ContentSection>): seq<ContentSection> {
    LevelOne(SortBy(all, PositionKey(all)))
  }

  /** `reorganize_sections` as written. The first pass makes the level-1
      sections, without subsections, the new roots. In the second pass the
      first section of level above 1 is looked up in that new forest,
      which does not hold it, so `list.index` raises. Sections below level
      1 are placed by neither pass. */
  function ReorganizeSpec(secs: seq<ContentSection>): Result<seq<ContentSection>, Error> {
    if secs == [] then Ok(secs)
    else if AnyAboveOne(Flatten(secs)) then Err(SectionNotInList)
    else Ok(Cleared(SortedRoots(Flatten(secs))))
  }

  lemma {:induction false} LevelOneAppend(a: seq<ContentSection>, b: seq<ContentSection>)
    ensures LevelOne(a + b) == LevelOne(a) + LevelOne(b)
  {
    if a != [] {
      assert (a + b)[0] == a[0] && (a + b)[1..] == a[1..] + b;
      LevelOneAppend(a[1..], b);
      var x := if a[0].level == 1 then [a[0]] else [];
      assert LevelOne(a + b) == x + LevelOne(a[1..] + b);
    } else {
      assert a + b == b;
    }
  }

  lemma {:induction false} LevelOneCleared(secs: seq<ContentSection>)
    ensures LevelOne(Cleared(secs)) == Cleared(LevelOne(secs))
  {
    if secs != [] {
      assert Cleared(secs)[1..] == Cleared(secs[1..]);
      LevelOneCleared(secs[1..]);
    }
  }

  lemma {:induction false} LevelOneMultiset(secs: seq<ContentSection>, x: ContentSection)
    ensures multiset(LevelOne(secs))[x] == if x.level == 1 then multiset(secs)[x] else 0
  {
    if secs != [] {
      LevelOneMultiset(secs[1..], x);
      assert secs == [secs[0]] + secs[1..];
    }
  }

  lemma LevelOnePermutes(a: seq<ContentSection>, b: seq<ContentSection>)
    requires multiset(a) == multiset(b)
    ensures multiset(LevelOne(a)) == multiset(LevelOne(b))
  {
    forall x ensures multiset(LevelOne(a))[x] == multiset(LevelOne(b))[x] {
      LevelOneMultiset(a, x);
      LevelOneMultiset(b, x);
    }
  }

  lemma {:induction false} LevelOneSorted(secs: seq<ContentSection>, key: ContentSection -> Key)
    requires SortedBy(secs, key)
    ensures SortedBy(LevelOne(secs), key)
  {
    if secs != [] {
      LevelOneSorted(secs[1..], key);
      if secs[0].level == 1 {
        var rest := LevelOne(secs[1..]);
        forall j | 0 <= j < |rest| ensures KeyLe(key(secs[0]), key(rest[j])) {
          LevelOneMultiset(secs[1..], rest[j]);
          assert rest[j] in multiset(rest);
          assert rest[j] in secs[1..];
        }
      }
    }
  }

  /** The sorted roots are the level-1 entries of the list, each once per
      occurrence, ordered by level and first occurrence. */
  lemma SortedRootsFacts(all: seq<ContentSection>)
    ensures var roots := SortedRoots(all);
      && multiset(roots) == multiset(LevelOne(all))
      && (forall k :: 0 <= k < |roots| ==> roots[k] in all)
      && SortedBy(roots, PositionKey(all))
  {
    var sorted := SortBy(all, PositionKey(all));
    SortBySpec(all, PositionKey(all));
    LevelOnePermutes(sorted, all);
    LevelOneSorted(sorted, PositionKey(all));
    var roots := LevelOne(sorted);
    forall k | 0 <= k < |roots| ensures roots[k] in all {
      assert roots[k] in multiset(roots);
      LevelOneMultiset(all, roots[k]);
    }
  }

  /** When the rebuild succeeds, the new roots are the tree's level-1
      sections, each once per occurrence, without subsections, ordered by
      first occurrence in pre-order; it fails, with the ValueError, exactly
      when some section is above level 1. */
  lemma ReorganizeResult(secs: seq<ContentSection>)
    requires secs != []
    ensures var r := ReorganizeSpec(secs);
      var all := Flatten(secs);
      var roots := SortedRoots(all);
      && (r.Err? <==> exists k :: 0 <= k < |all| && all[k].level > 1)
      && (r.Err? ==> r.error.kind == ValueError)
      && (r.Ok? ==>
            r.value == Cleared(roots)
            && multiset(roots) == multiset(LevelOne(all))
            && LevelsFollowDepth(r.value, 1)
            && (forall k :: 0 <= k < |roots| ==> roots[k] in all)
            && SortedBy(roots, PositionKey(all)))
  {
    SortedRootsFacts(Flatten(secs));
  }

  /** The second pass meets a section above level 1 while the new roots
      are the level-1 sections without subsections: it is not among them. */
  lemma LookupInRebuiltRaises(roots: seq<ContentSection>, section: ContentSection)
    requires forall k :: 0 <= k < |roots| ==> roots[k].level == 1 && roots[k].subsections == []
    requires section.level > 1
    ensures FindParentForSpec(roots, section) == Err(SectionNotInList)
  {
    FlattenFlat(roots);
  }

  /** Sorting keeps the levels present in the list. */
  lemma SortedLevels(all: seq<ContentSection>)
    ensures var cleared := Cleared(SortBy(all, PositionKey(all)));
      AnyAboveOne(all) <==> AnyAboveOne(cleared)
  {
    var sorted := SortBy(all, PositionKey(all));
    var cleared := Cleared(sorted);
    SortBySpec(all, PositionKey(all));
    if AnyAboveOne(all) {
      var k :| 0 <= k < |all| && all[k].level > 1;
      assert all[k] in multiset(sorted);
      var j :| 0 <= j < |sorted| && sorted[j] == all[k];
      assert cleared[j].level > 1;
    }
    if AnyAboveOne(cleared) {
      var j :| 0 <= j < |cleared| && cleared[j].level > 1;
      assert sorted[j] in multiset(all);
    }
  }

  /** The loop that resets every sorted section's subsections. */
  method ClearSubsections(sortedSections: seq<ContentSection>) returns (cleared: seq<ContentSection>)
    ensures cleared == Cleared(sortedSections)
  {
    cleared := [];
    for i := 0 to |sortedSections|
      invariant cleared == Cleared(sortedSections[..i])
    {
      cleared := cleared + [sortedSections[i].(subsections := [])];
    }
    assert sortedSections[..|sortedSections|] == sortedSections;
  }

  /** The first pass: the level-1 sections become the roots. */
  method AddLevelOne(cleared: seq<ContentSection>) returns (rebuilt: seq<ContentSection>)
    ensures rebuilt == LevelOne(cleared)
  {
    rebuilt := [];
    for i := 0 to |cleared|
      invariant rebuilt == LevelOne(cleared[..i])
    {
      assert cleared[..i + 1] == cleared[..i] + [cleared[i]];
      LevelOneAppend(cleared[..i], [cleared[i]]);
      if cleared[i].level == 1 {
        rebuilt := rebuilt + [cleared[i]];
      }
    }
    assert cleared[..|cleared|] == cleared;
  }

  /** The second pass over the sorted sections: the first one above level 1
      is looked up in the new roots and the lookup raises. */
  method PlaceDeeper(cleared: seq<ContentSection>, rebuilt: seq<ContentSection>) returns (r: Result<seq<ContentSection>, Error>)
    requires forall k :: 0 <= k < |rebuilt| ==> rebuilt[k].level == 1 && rebuilt[k].subsections == []
    ensures r == if AnyAboveOne(cleared) then Err(SectionNotInList) else Ok(rebuilt)
  {
    for i := 0 to |cleared|
      invariant forall k :: 0 <= k < i ==> cleared[k].level <= 1
    {
      if cleared[i].level > 1 {
        LookupInRebuiltRaises(rebuilt, cleared[i]);
        var parent := FindParentForSection(rebuilt, cleared[i]);
        return Err(parent.error);
      }
    }
    return Ok(rebuilt);
  }

  method ReorganizeSections(sections: seq<ContentSection>) returns (r: Result<seq<ContentSection>, Error>)
    ensures r == ReorganizeSpec(sections)
  {
    if sections == [] {
      return Ok(sections);
    }
    var allSections := FlattenSections(sections);
    var sortedSections := SortBy(allSections, PositionKey(allSections));
    var cleared := ClearSubsections(sortedSections);
    var rebuilt := AddLevelOne(cleared);
    LevelOneCleared(sortedSections);
    SortedLevels(allSections);
    r := PlaceDeeper(cleared, rebuilt);
  }

  // ------------------------------------ validate_structure, validate_section_levels

  /** Every section's level reset to `level` plus its depth. */
  function ValidateLevels(secs: seq<ContentSection>, level: int): (r: seq<ContentSection>)
    ensures |r| == |secs|
  {
    if secs == [] then []
    else [secs[0].(level := level, subsections := ValidateLevels(secs[0].subsections, level + 1))]
         + ValidateLevels(secs[1..], level)
  }

  lemma {:induction false} ValidateLevelsAt(secs: seq<ContentSection>, level: int, i: nat)
    requires i < |secs|
    ensures ValidateLevels(secs, level)[i] == secs[i].(level := level, subsections := ValidateLevels(secs[i].subsections, level + 1))
  {
    if i > 0 {
      ValidateLevelsAt(secs[1..], level, i - 1);
    }
  }

  lemma {:induction false} ValidateLevelsAppend(a: seq<ContentSection>, b: seq<ContentSection>, level: int)
    ensures ValidateLevels(a + b, level) == ValidateLevels(a, level) + ValidateLevels(b, level)
  {
    if a != [] {
      assert (a + b)[0] == a[0] && (a + b)[1..] == a[1..] + b;
      ValidateLevelsAppend(a[1..], b, level);
      var x := a[0].(level := level, subsections := ValidateLevels(a[0].subsections, level + 1));
      assert ValidateLevels(a + b, level) == [x] + ValidateLevels(a[1..] + b, level);
    } else {
      assert a + b == b;
    }
  }

  /** Afterwards every level is the expected level plus the depth. */
  lemma {:induction false} ValidateLevelsDepth(secs: seq<ContentSection>, level: int)
    ensures LevelsFollowDepth(ValidateLevels(secs, level), level)
  {
    var r := ValidateLevels(secs, level);
    forall i | 0 <= i < |r| ensures r[i].level == level && LevelsFollowDepth(r[i].subsections, level + 1) {
      ValidateLevelsAt(secs, level, i);
      ValidateLevelsDepth(secs[i].subsections, level + 1);
    }
  }

  /** The reset changes nothing exactly when the levels already follow the
      depth; so running it twice gives the result of running it once. */
  lemma {:induction false} ValidateLevelsFixed(secs: seq<ContentSection>, level: int)
    ensures LevelsFollowDepth(secs, level) <==> ValidateLevels(secs, level) == secs
    ensures ValidateLevels(ValidateLevels(secs, level), level) == ValidateLevels(secs, level)
  {
    var r := ValidateLevels(secs, level);
    if LevelsFollowDepth(secs, level) {
      forall i | 0 <= i < |secs| ensures r[i] == secs[i] {
        ValidateLevelsAt(secs, level, i);
        ValidateLevelsFixed(secs[i].subsections, level + 1);
      }
    }
    ValidateLevelsDepth(secs, level);
    if r == secs {
      assert LevelsFollowDepth(secs, level);
    }
    forall i | 0 <= i < |r| ensures ValidateLevels(r, level)[i] == r[i] {
      ValidateLevelsAt(r, level, i);
      ValidateLevelsAt(secs, level, i);
      ValidateLevelsFixed(secs[i].subsections, level + 1);
    }
  }

  /** Only levels change: the same addresses, and at each the same title,
      elements and number of children, with level `level` plus the depth. */
  lemma {:induction false} ValidateLevelsPath(secs: seq<ContentSection>, level: int, p: Path)
    ensures ValidPath(ValidateLevels(secs, level), p) <==> ValidPath(secs, p)
    ensures ValidPath(secs, p) ==>
      var s, t := At(secs, p), At(ValidateLevels(secs, level), p);
      t.level == level + |p| - 1 && t.title == s.title && t.elements == s.elements
      && |t.subsections| == |s.subsections|
    decreases |p|
  {
    if |p| > 0 && p[0] < |secs| {
      ValidateLevelsAt(secs, level, p[0]);
      if |p| > 1 {
        ValidateLevelsPath(secs[p[0]].subsections, level + 1, p[1..]);
      }
    }
  }

  method ValidateSectionLevels(sections: seq<ContentSection>, currentLevel: int) returns (r: seq<ContentSection>)
    ensures r == ValidateLevels(sections, currentLevel)
    decreases sections
  {
    r := [];
    for i := 0 to |sections|
      invariant r == ValidateLevels(sections[..i], currentLevel)
    {
      var section := sections[i];
      if section.level != currentLevel {
        section := section.(level := currentLevel);
      }
      var subsections := ValidateSectionLevels(section.subsections, currentLevel + 1);
      section := section.(subsections := subsections);
      assert sections[..i + 1] == sections[..i] + [sections[i]];
      ValidateLevelsAppend(sections[..i], [sections[i]], currentLevel);
      assert [sections[i]][1..] == [];
      r := r + [section];
    }
    assert sections[..|sections|] == sections;
  }

  /** `not title`: no title, or the empty string. */
  predicate Falsy(title: Option<string>) {
    title.None? || title.value == ""
  }

  /** `validate_structure`: without a title, the first section gives its
      title and is removed; then the levels are reset from 1. */
  function ValidateStructureSpec(cs: ContentStructure): ContentStructure {
    var promoted :=
      if Falsy(cs.title) && cs.sections != [] then cs.(title := cs.sections[0].title, sections := cs.sections[1..])
      else cs;
    promoted.(sections := ValidateLevels(promoted.sections, 1))
  }

  method ValidateStructure(cs: ContentStructure) returns (r: ContentStructure)
    ensures r == ValidateStructureSpec(cs)
  {
    r := cs;
    if Falsy(r.title) && r.sections != [] {
      r := r.(title := r.sections[0].title);
      r := r.(sections := r.sections[1..]);
    }
    var sections := ValidateSectionLevels(r.sections, 1);
    r := r.(sections := sections);
  }

  /** The subtitle stays and the levels follow the depth from 1. Without a
      title the first section's title is promoted and the other sections
      stay, in order; with a title, the title and the sections stay. */
  lemma ValidateStructureResult(cs: ContentStructure)
    ensures var r := ValidateStructureSpec(cs);
      && r.subtitle == cs.subtitle
      && LevelsFollowDepth(r.sections, 1)
      && (Falsy(cs.title) && cs.sections != [] ==>
            r.title == cs.sections[0].title && r.sections == ValidateLevels(cs.sections[1..], 1))
      && (!Falsy(cs.title) || cs.sections == [] ==>
            r.title == cs.title && r.sections == ValidateLevels(cs.sections, 1))
  {
    var promoted :=
      if Falsy(cs.title) && cs.sections != [] then cs.(title := cs.sections[0].title, sections := cs.sections[1..])
      else cs;
    ValidateLevelsDepth(promoted.sections, 1);
  }

  // ------------------------------------------------------------- refine_with_llm

  /** The text between the first "```json" and the last "```" of the
      reply, stripped, when both occur. */
  function FenceContent(reply: string): Option<string> {
    var jsonStart := Find(reply, "```json");
    var jsonEnd := RFind(reply, "```");
    if jsonStart != -1 && jsonEnd != -1 then Some(Strip(Slice(reply, jsonStart + 7, jsonEnd)))
    else None
  }

  /** `refine_with_llm`: `reply` is the model's answer or the exception the
      chain raised, and `parse` is `model_validate_json`, None where it
      raises. Any failure keeps the input. */
  function RefineWithLlm(cs: ContentStructure, reply: Result<string, Error>,
                         parse: string -> Option<ContentStructure>): ContentStructure {
    match reply
    case Err(_) => cs
    case Ok(text) =>
      match FenceContent(text)
      case None => cs
      case Some(json) => parse(json).GetOr(cs)
  }

  /** A fenced block is found exactly when the reply contains "```json". */
  lemma FenceFound(reply: string)
    ensures FenceContent(reply).Some? <==> Contains(reply, "```json")
  {
    var jsonStart := Find(reply, "```json");
    if jsonStart != -1 {
      assert reply[jsonStart..jsonStart + 3] == reply[jsonStart..jsonStart + 7][..3];
      assert OccursAt(reply, "```", jsonStart);
    }
  }

  /** A reply that is exactly a fenced block gives back its body, stripped. */
  lemma FenceRoundTrip(body: string)
    ensures FenceContent("```json" + body + "```") == Some(Strip(body))
  {
    var s := "```json" + body + "```";
    assert OccursAt(s, "```json", 0) by {
      assert s[0..7] == "```json";
    }
    assert OccursAt(s, "```", |s| - 3) by {
      assert s[|s| - 3..|s|] == "```";
    }
    var jsonEnd := RFind(s, "```");
    assert jsonEnd == |s| - 3;
    assert Find(s, "```json") == 0;
    assert Slice(s, 7, |s| - 3) == s[7..|s| - 3] == body;
  }

  /** The input comes back unchanged when the call fails, when the reply
      has no "```json" block, or when the block does not parse. */
  lemma RefineFallback(cs: ContentStructure, reply: Result<string, Error>,
                       parse: string -> Option<ContentStructure>)
    ensures var r := RefineWithLlm(cs, reply, parse);
      && (reply.Err? ==> r == cs)
      && (reply.Ok? && !Contains(reply.value, "```json") ==> r == cs)
      && (reply.Ok? && FenceContent(reply.value).Some? ==>
            var json := FenceContent(reply.value).value;
            r == if parse(json).Some? then parse(json).value else cs)
  {
    if reply.Ok? {
      FenceFound(reply.value);
    }
  }

  // ------------------------------------ refine_section_hierarchy, detect_structure

  /** The options `detect_structure` reads, with their defaults. */
  datatype StructureOptions = StructureOptions(useLlmForHierarchy: bool := true)

  /** `refine_section_hierarchy`: normalise, rebuild, then refine. */
  function RefineSpec(cs: ContentStructure, options: StructureOptions, reply: Result<string, Error>,
                      parse: string -> Option<ContentStructure>): Result<ContentStructure, Error> {
    match ReorganizeSpec(NormalizeLevels(cs.sections))
    case Err(e) => Err(e)
    case Ok(secs) =>
      var refined := ContentStructure(cs.title, cs.subtitle, secs);
      Ok(if options.useLlmForHierarchy then RefineWithLlm(refined, reply, parse) else refined)
  }

  /** The caller's own top-level sections afterwards: the copy shares them,
      so they carry the normalised levels, and the rebuild has cleared
      their subsections, whether or not it then raised. */
  function CallerView(secs: seq<ContentSection>): seq<ContentSection> {
    if secs == [] then [] else Cleared(NormalizeLevels(secs))
  }

  method RefineSectionHierarchy(cs: ContentStructure, options: StructureOptions, reply: Result<string, Error>,
                                parse: string -> Option<ContentStructure>)
    returns (r: Result<ContentStructure, Error>, callerSections: seq<ContentSection>)
    ensures r == RefineSpec(cs, options, reply, parse)
    ensures callerSections == CallerView(cs.sections)
  {
    var refined := ContentStructure(cs.title, cs.subtitle, cs.sections);
    var normalized := NormalizeSectionLevels(refined.sections);
    refined := refined.(sections := normalized);
    callerSections := if normalized == [] then [] else Cleared(normalized);
    var reorganized := ReorganizeSections(refined.sections);
    if reorganized.Err? {
      return Err(reorganized.error), callerSections;
    }
    refined := refined.(sections := reorganized.value);
    if options.useLlmForHierarchy {
      refined := RefineWithLlm(refined, reply, parse);
    }
    r := Ok(refined);
  }

  /** What `detect_structure` returns. */
  function DetectSpec(cs: ContentStructure, options: StructureOptions, reply: Result<string, Error>,
                      parse: string -> Option<ContentStructure>): Result<ContentStructure, Error> {
    WrapErrors(ContentAnalysisError, "Failed to detect structure",
      match RefineSpec(cs, options, reply, parse)
      case Err(e) => Err(e)
      case Ok(refined) => Ok(ValidateStructureSpec(refined)))
  }

  method DetectStructure(cs: ContentStructure, options: StructureOptions, reply: Result<string, Error>,
                         parse: string -> Option<ContentStructure>)
    returns (r: Result<ContentStructure, Error>, callerSections: seq<ContentSection>)
    ensures r == DetectSpec(cs, options, reply, parse)
    ensures callerSections == CallerView(cs.sections)
  {
    var refined;
    refined, callerSections := RefineSectionHierarchy(cs, options, reply, parse);
    var inner: Result<ContentStructure, Error>;
    if refined.Err? {
      inner := Err(refined.error);
    } else {
      var validated := ValidateStructure(refined.value);
      inner := Ok(validated);
    }
    r := WrapErrors(ContentAnalysisError, "Failed to detect structure", inner);
  }

  /** `detect_structure` fails, with a ContentAnalysisError, exactly when
      the normalised tree has a section above level 1. On success the
      levels follow the depth; without the LLM step the subtitle is kept
      and no section has subsections. */
  lemma DetectResult(cs: ContentStructure, options: StructureOptions, reply: Result<string, Error>,
                     parse: string -> Option<ContentStructure>)
    ensures var r := DetectSpec(cs, options, reply, parse);
      && (r.Err? <==> cs.sections != [] && AnyAboveOne(Flatten(NormalizeLevels(cs.sections))))
      && (r.Err? ==> r.error.kind == ContentAnalysisError)
      && (r.Ok? ==> LevelsFollowDepth(r.value.sections, 1))
      && (r.Ok? && !options.useLlmForHierarchy ==>
            r.value.subtitle == cs.subtitle
            && forall k :: 0 <= k < |r.value.sections| ==> r.value.sections[k].subsections == [])
  {
    var n := NormalizeLevels(cs.sections);
    match RefineSpec(cs, options, reply, parse)
    case Err(_) =>
    case Ok(refined) =>
      ValidateStructureResult(refined);
      if !options.useLlmForHierarchy {
        var v := ValidateStructureSpec(refined);
        var promoted :=
          if Falsy(refined.title) && refined.sections != [] then refined.sections[1..] else refined.sections;
        assert forall k :: 0 <= k < |promoted| ==> promoted[k].subsections == [];
        forall k | 0 <= k < |v.sections| ensures v.sections[k].subsections == [] {
          ValidateLevelsAt(promoted, 1, k);
        }
      }
  }

  /** A top-level section with any deeper subsection always makes
      `detect_structure` fail: after normalisation the top level starts at
      1, so that subsection is above level 1. */
  lemma NestedInputFails(cs: ContentStructure, options: StructureOptions, reply: Result<string, Error>,
                         parse: string -> Option<ContentStructure>, i: nat, j: nat)
    requires i < |cs.sections| && j < |cs.sections[i].subsections|
    requires cs.sections[i].subsections[j].level > cs.sections[i].level
    ensures DetectSpec(cs, options, reply, parse).Err?
  {
    var n := NormalizeLevels(cs.sections);
    NormalizeResult(cs.sections);
    var d := 1 - MinLevel(cs.sections);
    assert ValidPath(cs.sections, [i]);
    assert ValidPath(cs.sections, [i, j]) by {
      assert [i, j][1..] == [j];
    }
    assert At(cs.sections, [i, j]) == cs.sections[i].subsections[j] by {
      assert [i, j][1..] == [j];
    }
    assert n[i].level >= 1;
    assert At(n, [i]).level == n[i].level;
    assert At(n, [i, j]).level > 1;
    FlattenContains(n, [i, j]);
    var x := At(n, [i, j]);
    var k :| 0 <= k < |Flatten(n)| && Flatten(n)[k] == x;
    DetectResult(cs, options, reply, parse);
  }
}
