/** Addresses of sections inside a forest of `ContentSection` values.
    The Python code holds references to sections deep inside the tree
    (`current_section`, the parent found by a search) and appends to their
    `elements` and `subsections` in place. With sections as values, such a
    reference is a path of child indices from the root list, and the
    in-place appends are the functions `AppendChildAt` and
    `AppendElementAt`, which rebuild the spine down to the addressed
    section and leave everything else as it was. */
module SectionPaths {
  import opened Models

  type Path = seq<nat>

  /** `p` addresses a section: `p[0]` indexes `secs`, the rest indexes
      subsections below it. */
  predicate ValidPath(secs: seq<ContentSection>, p: Path)
    decreases |p|
  {
    |p| > 0 && p[0] < |secs| && (|p| == 1 || ValidPath(secs[p[0]].subsections, p[1..]))
  }

  /** The section that `p` addresses. */
  function At(secs: seq<ContentSection>, p: Path): ContentSection
    requires ValidPath(secs, p)
    decreases |p|
  {
    if |p| == 1 then secs[p[0]] else At(secs[p[0]].subsections, p[1..])
  }

  /** `At(secs, p).subsections.append(child)` done in place. */
  function AppendChildAt(secs: seq<ContentSection>, p: Path, child: ContentSection): (r: seq<ContentSection>)
    requires ValidPath(secs, p)
    ensures |r| == |secs|
    decreases |p|
  {
    var s := secs[p[0]];
    if |p| == 1 then secs[p[0] := s.(subsections := s.subsections + [child])]
    else secs[p[0] := s.(subsections := AppendChildAt(s.subsections, p[1..], child))]
  }

  /** `At(secs, p).elements.append(e)` done in place. */
  function AppendElementAt(secs: seq<ContentSection>, p: Path, e: ContentElement): (r: seq<ContentSection>)
    requires ValidPath(secs, p)
    ensures |r| == |secs|
    decreases |p|
  {
    var s := secs[p[0]];
    if |p| == 1 then secs[p[0] := s.(elements := s.elements + [e])]
    else secs[p[0] := s.(subsections := AppendElementAt(s.subsections, p[1..], e))]
  }

  lemma SectionCountSingle(x: ContentSection)
    ensures SectionCount([x]) == 1 + SectionCount(x.subsections)
  {
    assert [x][1..] == [];
  }

  /** Replacing one section of a forest changes the count by the difference. */
  lemma SectionCountUpdate(secs: seq<ContentSection>, i: nat, x: ContentSection)
    requires i < |secs|
    ensures SectionCount(secs[i := x]) + SectionCount(secs[i].subsections) == SectionCount(secs) + SectionCount(x.subsections)
  {
    var a, b := secs[..i], secs[i + 1..];
    SectionCountSingle(x);
    SectionCountSingle(secs[i]);
    assert secs == (a + [secs[i]]) + b;
    assert secs[i := x] == (a + [x]) + b;
    SectionCountAppend(a + [secs[i]], b);
    SectionCountAppend(a, [secs[i]]);
    SectionCountAppend(a + [x], b);
    SectionCountAppend(a, [x]);
  }

  /** The appended child is reachable at `p + [k]`, where `k` is the number
      of children `p` had before, and the forest gained exactly its sections. */
  lemma {:induction false} AppendChildAtSpec(secs: seq<ContentSection>, p: Path, child: ContentSection)
    requires ValidPath(secs, p)
    ensures var r := AppendChildAt(secs, p, child);
      var k := |At(secs, p).subsections|;
      && ValidPath(r, p) && At(r, p) == At(secs, p).(subsections := At(secs, p).subsections + [child])
      && ValidPath(r, p + [k]) && At(r, p + [k]) == child
      && SectionCount(r) == SectionCount(secs) + 1 + SectionCount(child.subsections)
    decreases |p|
  {
    var s := secs[p[0]];
    var r := AppendChildAt(secs, p, child);
    var k := |At(secs, p).subsections|;
    assert (p + [k])[0] == p[0] && (p + [k])[1..] == p[1..] + [k];
    if |p| == 1 {
      var subs := s.subsections + [child];
      SectionCountAppend(s.subsections, [child]);
      SectionCountSingle(child);
      SectionCountUpdate(secs, p[0], s.(subsections := subs));
      assert r == secs[p[0] := s.(subsections := subs)];
    } else {
      AppendChildAtSpec(s.subsections, p[1..], child);
      SectionCountUpdate(secs, p[0], s.(subsections := AppendChildAt(s.subsections, p[1..], child)));
    }
  }

  /** Appending a child keeps every existing address valid, and the level,
      title and elements of every addressed section unchanged. */
  lemma {:induction false} AppendChildAtKeeps(secs: seq<ContentSection>, p: Path, child: ContentSection, q: Path)
    requires ValidPath(secs, p) && ValidPath(secs, q)
    ensures var r := AppendChildAt(secs, p, child);
      && ValidPath(r, q)
      && At(r, q).level == At(secs, q).level
      && At(r, q).title == At(secs, q).title
      && At(r, q).elements == At(secs, q).elements
    decreases |q|
  {
    var s := secs[p[0]];
    if |q| > 1 && q[0] == p[0] {
      if |p| == 1 {
        var subs := s.subsections + [child];
        assert subs[..|s.subsections|] == s.subsections;
        SubforestKeeps(s.subsections, [child], q[1..]);
      } else {
        AppendChildAtKeeps(s.subsections, p[1..], child, q[1..]);
      }
    }
  }

  /** Addresses into a forest stay valid, with the same sections, when more
      sections are added after it. */
  lemma {:induction false} SubforestKeeps(secs: seq<ContentSection>, more: seq<ContentSection>, q: Path)
    requires ValidPath(secs, q)
    ensures ValidPath(secs + more, q) && At(secs + more, q) == At(secs, q)
  {
    assert (secs + more)[q[0]] == secs[q[0]];
  }

  /** The element is appended to the addressed section; the set of valid
      addresses, every level and title, and the section count stay the same. */
  lemma {:induction false} AppendElementAtSpec(secs: seq<ContentSection>, p: Path, e: ContentElement)
    requires ValidPath(secs, p)
    ensures var r := AppendElementAt(secs, p, e);
      && ValidPath(r, p) && At(r, p).elements == At(secs, p).elements + [e]
      && At(r, p).level == At(secs, p).level && At(r, p).title == At(secs, p).title
      && |At(r, p).subsections| == |At(secs, p).subsections|
      && SectionCount(r) == SectionCount(secs)
    decreases |p|
  {
    var s := secs[p[0]];
    if |p| == 1 {
      SectionCountUpdate(secs, p[0], s.(elements := s.elements + [e]));
    } else {
      AppendElementAtSpec(s.subsections, p[1..], e);
      SectionCountUpdate(secs, p[0], s.(subsections := AppendElementAt(s.subsections, p[1..], e)));
    }
  }

  /** Appending an element keeps every address valid, every level and
      title unchanged, and the elements of every other address as they were. */
  lemma {:induction false} AppendElementAtKeeps(secs: seq<ContentSection>, p: Path, e: ContentElement, q: Path)
    requires ValidPath(secs, p) && ValidPath(secs, q)
    ensures var r := AppendElementAt(secs, p, e);
      && ValidPath(r, q)
      && At(r, q).level == At(secs, q).level
      && At(r, q).title == At(secs, q).title
      && |At(r, q).subsections| == |At(secs, q).subsections|
      && (q != p ==> At(r, q).elements == At(secs, q).elements)
    decreases |q|
  {
    var s := secs[p[0]];
    if q[0] == p[0] {
      if |q| == 1 && |p| == 1 {
        assert q == p;
      } else if |q| > 1 && |p| > 1 {
        assert q == [q[0]] + q[1..] && p == [p[0]] + p[1..];
        AppendElementAtKeeps(s.subsections, p[1..], e, q[1..]);
      }
    }
  }

  /** Appending an element adds no address. */
  lemma {:induction false} AppendElementAtNoNewPath(secs: seq<ContentSection>, p: Path, e: ContentElement, q: Path)
    requires ValidPath(secs, p) && ValidPath(AppendElementAt(secs, p, e), q)
    ensures ValidPath(secs, q)
    decreases |q|
  {
    var s := secs[p[0]];
    if |q| > 1 && q[0] == p[0] && |p| > 1 {
      AppendElementAtNoNewPath(s.subsections, p[1..], e, q[1..]);
    }
  }

  /** `r` is `secs` with `extra` appended to the elements of the section at
      `p`: the same addresses, and at each the same level, title and number
      of subsections, and the same elements except at `p`. */
  ghost predicate ElementsAppended(secs: seq<ContentSection>, r: seq<ContentSection>, p: Path, extra: seq<ContentElement>) {
    && (forall q :: ValidPath(r, q) <==> ValidPath(secs, q))
    && ValidPath(secs, p)
    && forall q :: ValidPath(secs, q) ==>
         && ValidPath(r, q)
         && At(r, q).level == At(secs, q).level
         && At(r, q).title == At(secs, q).title
         && |At(r, q).subsections| == |At(secs, q).subsections|
         && At(r, q).elements == At(secs, q).elements + (if q == p then extra else [])
  }

  /** `AppendElementAt` appends one element at `p` and changes nothing else. */
  lemma AppendElementAtFrame(secs: seq<ContentSection>, p: Path, e: ContentElement)
    requires ValidPath(secs, p)
    ensures ElementsAppended(secs, AppendElementAt(secs, p, e), p, [e])
  {
    var r := AppendElementAt(secs, p, e);
    forall q
      ensures ValidPath(r, q) <==> ValidPath(secs, q)
    {
      if ValidPath(r, q) {
        AppendElementAtNoNewPath(secs, p, e, q);
      }
      if ValidPath(secs, q) {
        AppendElementAtKeeps(secs, p, e, q);
      }
    }
    forall q | ValidPath(secs, q)
      ensures ValidPath(r, q)
      ensures At(r, q).level == At(secs, q).level && At(r, q).title == At(secs, q).title
      ensures |At(r, q).subsections| == |At(secs, q).subsections|
      ensures At(r, q).elements == At(secs, q).elements + (if q == p then [e] else [])
    {
      AppendElementAtKeeps(secs, p, e, q);
      if q == p {
        AppendElementAtSpec(secs, p, e);
      }
    }
  }

  /** Two appends at the same address make one append of both. */
  lemma ElementsAppendedTrans(a: seq<ContentSection>, b: seq<ContentSection>, c: seq<ContentSection>,
                              p: Path, x: seq<ContentElement>, y: seq<ContentElement>)
    requires ElementsAppended(a, b, p, x) && ElementsAppended(b, c, p, y)
    ensures ElementsAppended(a, c, p, x + y)
  {
    forall q | ValidPath(a, q)
      ensures At(c, q).elements == At(a, q).elements + (if q == p then x + y else [])
    {
      assert ValidPath(b, q);
      if q == p {
        assert At(a, q).elements + x + y == At(a, q).elements + (x + y);
      }
    }
  }

  /** Levels within bounds survive appending a child that is within them. */
  lemma {:induction false} AppendChildAtLevels(secs: seq<ContentSection>, p: Path, child: ContentSection, lo: int, hi: int)
    requires ValidPath(secs, p) && LevelsWithin(secs, lo, hi) && LevelsWithin([child], lo, hi)
    ensures LevelsWithin(AppendChildAt(secs, p, child), lo, hi)
    decreases |p|
  {
    var s := secs[p[0]];
    if |p| == 1 {
      var subs := s.subsections + [child];
      assert forall i :: 0 <= i < |subs| ==> (i < |s.subsections| && subs[i] == s.subsections[i]) || subs[i] == child;
    } else {
      AppendChildAtLevels(s.subsections, p[1..], child, lo, hi);
    }
  }

  /** Appending an element does not touch levels. */
  lemma {:induction false} AppendElementAtLevels(secs: seq<ContentSection>, p: Path, e: ContentElement, lo: int, hi: int)
    requires ValidPath(secs, p) && LevelsWithin(secs, lo, hi)
    ensures LevelsWithin(AppendElementAt(secs, p, e), lo, hi)
    decreases |p|
  {
    if |p| > 1 {
      AppendElementAtLevels(secs[p[0]].subsections, p[1..], e, lo, hi);
    }
  }

  /** Extending an address by a child index addresses that child. */
  lemma {:induction false} AtChild(secs: seq<ContentSection>, p: Path, j: nat)
    requires ValidPath(secs, p) && j < |At(secs, p).subsections|
    ensures ValidPath(secs, p + [j]) && At(secs, p + [j]) == At(secs, p).subsections[j]
    decreases |p|
  {
    var q := p + [j];
    assert q[0] == p[0];
    if |p| == 1 {
      assert q[1..] == [j];
    } else {
      assert q[1..] == p[1..] + [j];
      AtChild(secs[p[0]].subsections, p[1..], j);
    }
  }

  /** Every subsection has a larger level than the section holding it. */
  predicate ChildrenDeeper(secs: seq<ContentSection>) {
    forall i :: 0 <= i < |secs| ==>
      (forall j :: 0 <= j < |secs[i].subsections| ==> secs[i].subsections[j].level > secs[i].level)
      && ChildrenDeeper(secs[i].subsections)
  }

  /** A new child whose level exceeds its parent's keeps children deeper. */
  lemma {:induction false} AppendChildAtDeeper(secs: seq<ContentSection>, p: Path, child: ContentSection)
    requires ValidPath(secs, p) && ChildrenDeeper(secs)
    requires child.subsections == [] && child.level > At(secs, p).level
    ensures ChildrenDeeper(AppendChildAt(secs, p, child))
    decreases |p|
  {
    var s := secs[p[0]];
    var r := AppendChildAt(secs, p, child);
    if |p| == 1 {
      var subs := s.subsections + [child];
      assert forall j :: 0 <= j < |subs| ==> (j < |s.subsections| && subs[j] == s.subsections[j]) || subs[j] == child;
      assert ChildrenDeeper(subs);
    } else {
      var subs := AppendChildAt(s.subsections, p[1..], child);
      AppendChildAtDeeper(s.subsections, p[1..], child);
      assert forall j :: 0 <= j < |subs| ==> subs[j].level == s.subsections[j].level;
    }
    assert forall i :: 0 <= i < |r| && i != p[0] ==> r[i] == secs[i];
  }

  /** Appending an element keeps children deeper. */
  lemma {:induction false} AppendElementAtDeeper(secs: seq<ContentSection>, p: Path, e: ContentElement)
    requires ValidPath(secs, p) && ChildrenDeeper(secs)
    ensures ChildrenDeeper(AppendElementAt(secs, p, e))
    decreases |p|
  {
    var s := secs[p[0]];
    var r := AppendElementAt(secs, p, e);
    if |p| > 1 {
      var subs := AppendElementAt(s.subsections, p[1..], e);
      AppendElementAtDeeper(s.subsections, p[1..], e);
      assert forall j :: 0 <= j < |subs| ==> subs[j].level == s.subsections[j].level;
    }
    assert forall i :: 0 <= i < |r| && i != p[0] ==> r[i] == secs[i];
  }
}
