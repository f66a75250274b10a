/** The layout fragment classifier of src/image_processing/layout_analysis.py.
    It tags the OCR boxes of one page with the role they play: `heading`,
    `paragraph_start`, `paragraph_content` or `list_item`. Each stage is a
    method whose loops follow the source; each is proved equal to a
    specification function on the box sequence, and the lemmas below say
    what those functions mean. Geometry is integer; the ratios the source
    computes in floating point are exact reals here. */
module LayoutAnalysis {
  import opened Wrappers
  import opened Exceptions
  import opened Builtins
  import opened Sorting
  import opened Models

  /** The two options the stages read, with the source's defaults. */
  datatype LayoutOptions = LayoutOptions(headingSizeThreshold: real := 1.3, paragraphThreshold: real := 1.5)

  /** Boxes are put in reading order by their top edge. */
  function YKey(b: TextBox): Key {
    Key(b.bbox.y, 0)
  }

  function SortByY(boxes: seq<TextBox>): (r: seq<TextBox>)
    ensures |r| == |boxes|
  {
    SortBy(boxes, YKey)
  }

  function SumHeights(boxes: seq<TextBox>): int {
    if boxes == [] then 0 else boxes[0].bbox.height + SumHeights(boxes[1..])
  }

  function AverageHeight(boxes: seq<TextBox>): real
    requires boxes != []
  {
    SumHeights(boxes) as real / |boxes| as real
  }

  /** A threshold relative to the average height. Kept as a function of
      its own so that equal thresholds are recognised without multiplying. */
  function Scaled(avg: real, factor: real): real {
    avg * factor
  }

  /** `a` and `b` hold the same boxes up to their roles. */
  predicate SameGeometry(a: seq<TextBox>, b: seq<TextBox>) {
    |a| == |b| && forall i :: 0 <= i < |a| ==> a[i].bbox == b[i].bbox && a[i].text == b[i].text
  }

  lemma {:induction false} SameGeometryHeights(a: seq<TextBox>, b: seq<TextBox>)
    requires SameGeometry(a, b)
    ensures SumHeights(a) == SumHeights(b)
  {
    if a != [] {
      assert SameGeometry(a[1..], b[1..]) by {
        forall i | 0 <= i < |a[1..]| ensures a[1..][i].bbox == b[1..][i].bbox && a[1..][i].text == b[1..][i].text {
          assert a[1..][i] == a[i + 1] && b[1..][i] == b[i + 1];
        }
      }
      SameGeometryHeights(a[1..], b[1..]);
    }
  }

  lemma SameGeometrySorted(a: seq<TextBox>, b: seq<TextBox>)
    requires SameGeometry(a, b) && SortedBy(a, YKey)
    ensures SortedBy(b, YKey)
  {
    forall i, j | 0 <= i < j < |b| ensures KeyLe(YKey(b[i]), YKey(b[j])) {
      assert YKey(b[i]) == YKey(a[i]) && YKey(b[j]) == YKey(a[j]);
    }
  }

  // ---------------------------------------------------------------- headings

  /** Box `k` lies wholly below box `i` and is of ordinary height. Boxes
      are told apart by position, which stands for object identity. */
  predicate NormalTextBelow(boxes: seq<TextBox>, i: nat, k: nat, avg: real)
    requires i < |boxes| && k < |boxes|
  {
    k != i
    && boxes[k].bbox.y > boxes[i].bbox.y + boxes[i].bbox.height
    && boxes[k].bbox.height as real <= avg * 1.2
  }

  /** `is_title_or_heading`: near the top of the page or clearly large, and
      either followed by ordinary text or at most ten words long. */
  predicate TitleOrHeading(boxes: seq<TextBox>, i: nat, avg: real)
    requires i < |boxes|
  {
    var b := boxes[i];
    (b.bbox.y as real < avg * 3.0 || b.bbox.height as real > avg * 1.5)
    && ((exists k :: 0 <= k < |boxes| && NormalTextBelow(boxes, i, k, avg))
        || |SplitWhitespace(b.text)| <= 10)
  }

  method IsTitleOrHeading(boxes: seq<TextBox>, i: nat, avg: real) returns (b: bool)
    requires i < |boxes|
    ensures b == TitleOrHeading(boxes, i, avg)
  {
    var box := boxes[i];
    var isAtTop := box.bbox.y as real < avg * 3.0;
    var isLarge := box.bbox.height as real > avg * 1.5;
    var isFollowedByNormalText := false;
    var boxBottom := box.bbox.y + box.bbox.height;
    var k := 0;
    while k < |boxes| && !isFollowedByNormalText
      invariant 0 <= k <= |boxes|
      invariant !isFollowedByNormalText ==> forall m :: 0 <= m < k ==> !NormalTextBelow(boxes, i, m, avg)
      invariant isFollowedByNormalText ==> exists m :: 0 <= m < |boxes| && NormalTextBelow(boxes, i, m, avg)
    {
      if k != i {
        var other := boxes[k];
        if other.bbox.y > boxBottom && other.bbox.height as real <= avg * 1.2 {
          isFollowedByNormalText := true;
          assert NormalTextBelow(boxes, i, k, avg);
        }
      }
      k := k + 1;
    }
    var isShort := |SplitWhitespace(box.text)| <= 10;
    b := (isAtTop || isLarge) && (isFollowedByNormalText || isShort);
  }

  /** Box `i` of the y-sorted boxes is confirmed as a heading. */
  predicate IsHeadingAt(sorted: seq<TextBox>, i: nat, avg: real, threshold: real)
    requires i < |sorted|
  {
    sorted[i].bbox.height as real > Scaled(avg, threshold) && TitleOrHeading(sorted, i, avg)
  }

  function MarkHeadings(sorted: seq<TextBox>, avg: real, threshold: real): seq<TextBox> {
    seq(|sorted|, i requires 0 <= i < |sorted| =>
      if IsHeadingAt(sorted, i, avg, threshold) then sorted[i].(textType := Heading) else sorted[i])
  }

  /** What `identify_headings` returns. */
  function HeadingsSpec(et: ExtractedText, options: LayoutOptions): ExtractedText {
    var sorted := SortByY(et.textBoxes);
    if sorted == [] then et
    else et.(textBoxes := MarkHeadings(sorted, AverageHeight(sorted), options.headingSizeThreshold))
  }

  method IdentifyHeadings(et: ExtractedText, options: LayoutOptions) returns (r: ExtractedText)
    ensures r == HeadingsSpec(et, options)
  {
    var textBoxes := et.textBoxes;
    var sorted := SortByY(textBoxes);
    if |sorted| == 0 {
      return et;
    }
    var avg := AverageHeight(sorted);
    var threshold := options.headingSizeThreshold;
    var updated: seq<TextBox> := [];
    for i := 0 to |sorted|
      invariant |updated| == i
      invariant forall k :: 0 <= k < i ==> updated[k] == MarkHeadings(sorted, avg, threshold)[k]
    {
      var box := sorted[i];
      if box.bbox.height as real > Scaled(avg, threshold) {
        var heading := IsTitleOrHeading(sorted, i, avg);
        if heading {
          box := box.(textType := Heading);
        }
      }
      updated := updated + [box];
    }
    assert updated == MarkHeadings(sorted, avg, threshold);
    r := et.(textBoxes := updated);
  }

  /** An empty page comes back as it was. */
  lemma HeadingsOfEmpty(et: ExtractedText, options: LayoutOptions)
    requires et.textBoxes == []
    ensures HeadingsSpec(et, options) == et
  {
  }

  /** The boxes come back in stable y order: the same boxes as the input's
      stable sort, and only the role of a box can differ, and then only
      to `heading` when both the size test and `is_title_or_heading` hold.
      Nothing but the box list changes. */
  lemma HeadingsResult(et: ExtractedText, options: LayoutOptions)
    ensures var r := HeadingsSpec(et, options).textBoxes;
      var sorted := SortByY(et.textBoxes);
      SortedBy(r, YKey)
      && SameGeometry(sorted, r)
      && (forall i :: 0 <= i < |r| ==> r[i] == sorted[i].(textType := r[i].textType))
      && (forall i :: 0 <= i < |r| && r[i].textType != sorted[i].textType ==>
            r[i].textType == Heading
            && IsHeadingAt(sorted, i, AverageHeight(sorted), options.headingSizeThreshold))
    ensures HeadingsSpec(et, options) == et.(textBoxes := HeadingsSpec(et, options).textBoxes)
  {
    var sorted := SortByY(et.textBoxes);
    SortBySpec(et.textBoxes, YKey);
    if sorted != [] {
      var avg := AverageHeight(sorted);
      MarkHeadingsFacts(sorted, avg, options.headingSizeThreshold);
      SameGeometrySorted(sorted, MarkHeadings(sorted, avg, options.headingSizeThreshold));
    } else {
      assert et.textBoxes == [];
    }
  }

  /** Heading marking keeps every box but its role, and changes a role
      only to `heading`, for a confirmed heading. */
  lemma MarkHeadingsFacts(sorted: seq<TextBox>, avg: real, threshold: real)
    ensures var r := MarkHeadings(sorted, avg, threshold);
      SameGeometry(sorted, r)
      && (forall i :: 0 <= i < |r| ==> r[i] == sorted[i].(textType := r[i].textType))
      && (forall i :: 0 <= i < |r| && r[i].textType != sorted[i].textType ==>
            r[i].textType == Heading && IsHeadingAt(sorted, i, avg, threshold))
  {
  }

  // -------------------------------------------------------------- paragraphs

  /** Vertical distance from the bottom of `prev` to the top of `b`. */
  function Gap(prev: TextBox, b: TextBox): int {
    b.bbox.y - (prev.bbox.y + prev.bbox.height)
  }

  /** Box `i` opens a new paragraph: it is first, or too far below box `i - 1`. */
  predicate StartsParagraph(s: seq<TextBox>, i: nat, limit: real)
    requires i < |s|
  {
    i == 0 || Gap(s[i - 1], s[i]) as real > limit
  }

  function Last<T>(s: seq<T>): T
    requires s != []
  {
    s[|s| - 1]
  }

  /** The last box is close enough to the one before it to join its group. */
  predicate JoinsLast(s: seq<TextBox>, limit: real)
    requires s != []
  {
    |s| >= 2 && Gap(s[|s| - 2], Last(s)) as real <= limit
  }

  /** The grouping loop of `identify_paragraphs`, read from the right: the
      last box joins the last group when its gap to the box before is
      within `limit`, and opens a group of its own otherwise. */
  function ParagraphGroups(s: seq<TextBox>, limit: real): (gs: seq<seq<TextBox>>)
    ensures forall k :: 0 <= k < |gs| ==> gs[k] != []
    ensures s == [] <==> gs == []
    ensures s != [] ==> Last(Last(gs)) == Last(s)
    decreases |s|
  {
    if s == [] then []
    else
      var gs := ParagraphGroups(s[..|s| - 1], limit);
      if JoinsLast(s, limit) then
        gs[..|gs| - 1] + [Last(gs) + [Last(s)]]
      else
        gs + [[Last(s)]]
  }

  /** The groups, one after another, are the boxes. */
  lemma {:induction false} ParagraphGroupsConcat(s: seq<TextBox>, limit: real)
    ensures Concat(ParagraphGroups(s, limit)) == s
    decreases |s|
  {
    if s != [] {
      ParagraphGroupsConcat(s[..|s| - 1], limit);
      if JoinsLast(s, limit) {
        ConcatJoined(s, limit);
      } else {
        ConcatStarted(s, limit);
      }
    }
  }

  /** A box close to its predecessor joins the last group. */
  lemma ConcatJoined(s: seq<TextBox>, limit: real)
    requires s != [] && JoinsLast(s, limit)
    requires Concat(ParagraphGroups(s[..|s| - 1], limit)) == s[..|s| - 1]
    ensures Concat(ParagraphGroups(s, limit)) == s
  {
    var gs := ParagraphGroups(s[..|s| - 1], limit);
    assert ParagraphGroups(s, limit) == gs[..|gs| - 1] + [gs[|gs| - 1] + [s[|s| - 1]]];
    ConcatExtendLast(gs, s[|s| - 1]);
    FrontLast(s);
  }

  /** Any other box starts a group of its own. */
  lemma ConcatStarted(s: seq<TextBox>, limit: real)
    requires s != [] && !JoinsLast(s, limit)
    requires Concat(ParagraphGroups(s[..|s| - 1], limit)) == s[..|s| - 1]
    ensures Concat(ParagraphGroups(s, limit)) == s
  {
    var gs := ParagraphGroups(s[..|s| - 1], limit);
    assert ParagraphGroups(s, limit) == gs + [[s[|s| - 1]]];
    ConcatSnoc(gs, [s[|s| - 1]]);
    FrontLast(s);
  }

  /** Inside each group, every gap between neighbours is within `limit`. */
  predicate CloseInside(gs: seq<seq<TextBox>>, limit: real) {
    forall k, j :: 0 <= k < |gs| && 0 < j < |gs[k]| ==> Gap(gs[k][j - 1], gs[k][j]) as real <= limit
  }

  predicate NonEmptyGroups(gs: seq<seq<TextBox>>) {
    forall k :: 0 <= k < |gs| ==> gs[k] != []
  }

  /** Between two neighbouring groups the gap exceeds `limit`. */
  predicate FarApart(gs: seq<seq<TextBox>>, limit: real)
    requires NonEmptyGroups(gs)
  {
    forall k :: 0 < k < |gs| ==> Gap(Last(gs[k - 1]), gs[k][0]) as real > limit
  }

  lemma CloseInsideSnoc(gs: seq<seq<TextBox>>, b: TextBox, limit: real)
    requires CloseInside(gs, limit)
    ensures CloseInside(gs + [[b]], limit)
  {
    var r := gs + [[b]];
    forall k, j | 0 <= k < |r| && 0 < j < |r[k]| ensures Gap(r[k][j - 1], r[k][j]) as real <= limit {
      if k < |gs| {
        assert r[k] == gs[k];
      }
    }
  }

  lemma CloseInsideExtendLast(gs: seq<seq<TextBox>>, b: TextBox, limit: real)
    requires gs != [] && Last(gs) != [] && CloseInside(gs, limit)
    requires Gap(Last(Last(gs)), b) as real <= limit
    ensures CloseInside(gs[..|gs| - 1] + [Last(gs) + [b]], limit)
  {
    var n := |gs| - 1;
    var r := gs[..n] + [Last(gs) + [b]];
    forall k, j | 0 <= k < |r| && 0 < j < |r[k]| ensures Gap(r[k][j - 1], r[k][j]) as real <= limit {
      if k < n {
        assert r[k] == gs[k];
      } else if j < |gs[n]| {
        assert r[k][j - 1] == gs[n][j - 1] && r[k][j] == gs[n][j];
      } else {
        assert r[k][j - 1] == Last(gs[n]) && r[k][j] == b;
      }
    }
  }

  lemma FarApartSnoc(gs: seq<seq<TextBox>>, b: TextBox, limit: real)
    requires NonEmptyGroups(gs) && FarApart(gs, limit)
    requires gs != [] ==> Gap(Last(Last(gs)), b) as real > limit
    ensures NonEmptyGroups(gs + [[b]]) && FarApart(gs + [[b]], limit)
  {
    var r := gs + [[b]];
    assert NonEmptyGroups(r) by {
      forall k | 0 <= k < |r| ensures r[k] != [] {
        if k < |gs| {
          assert r[k] == gs[k];
        }
      }
    }
    forall k | 0 < k < |r| ensures Gap(Last(r[k - 1]), r[k][0]) as real > limit {
      assert r[k - 1] == gs[k - 1];
      if k < |gs| {
        assert r[k] == gs[k];
      }
    }
  }

  lemma FarApartExtendLast(gs: seq<seq<TextBox>>, b: TextBox, limit: real)
    requires gs != [] && NonEmptyGroups(gs) && FarApart(gs, limit)
    ensures NonEmptyGroups(gs[..|gs| - 1] + [Last(gs) + [b]])
    ensures FarApart(gs[..|gs| - 1] + [Last(gs) + [b]], limit)
  {
    var n := |gs| - 1;
    var r := gs[..n] + [Last(gs) + [b]];
    assert NonEmptyGroups(r) by {
      forall k | 0 <= k < |r| ensures r[k] != [] {
        if k < n {
          assert r[k] == gs[k];
        }
      }
    }
    forall k | 0 < k < |r| ensures Gap(Last(r[k - 1]), r[k][0]) as real > limit {
      assert r[k - 1] == gs[k - 1];
      if k < n {
        assert r[k] == gs[k];
      } else {
        assert r[k][0] == gs[n][0];
      }
    }
  }

  /** Inside a group, every gap between neighbours is within `limit`. */
  lemma {:induction false} ParagraphGroupsCloseInside(s: seq<TextBox>, limit: real)
    ensures CloseInside(ParagraphGroups(s, limit), limit)
    decreases |s|
  {
    if s != [] {
      var init := s[..|s| - 1];
      var gs := ParagraphGroups(init, limit);
      ParagraphGroupsCloseInside(init, limit);
      if JoinsLast(s, limit) {
        assert Last(Last(gs)) == s[|s| - 2];
        CloseInsideExtendLast(gs, Last(s), limit);
      } else {
        CloseInsideSnoc(gs, Last(s), limit);
      }
    }
  }

  /** Between two neighbouring groups the gap exceeds `limit`. */
  lemma {:induction false} ParagraphGroupsFarApart(s: seq<TextBox>, limit: real)
    ensures NonEmptyGroups(ParagraphGroups(s, limit))
    ensures FarApart(ParagraphGroups(s, limit), limit)
    decreases |s|
  {
    if s != [] {
      var init := s[..|s| - 1];
      var gs := ParagraphGroups(init, limit);
      ParagraphGroupsFarApart(init, limit);
      if JoinsLast(s, limit) {
        FarApartExtendLast(gs, Last(s), limit);
      } else {
        if gs != [] {
          assert Last(Last(gs)) == s[|s| - 2];
        }
        FarApartSnoc(gs, Last(s), limit);
      }
    }
  }

  /** One step of the grouping loop, for the box at position `i > 0`. */
  lemma ParagraphGroupsStep(s: seq<TextBox>, i: nat, limit: real, paragraphs: seq<seq<TextBox>>, current: seq<TextBox>)
    requires 0 < i < |s|
    requires paragraphs + [current] == ParagraphGroups(s[..i], limit)
    ensures current != [] && Last(current) == s[i - 1]
    ensures Gap(Last(current), s[i]) as real <= limit ==>
      ParagraphGroups(s[..i + 1], limit) == paragraphs + [current + [s[i]]]
    ensures Gap(Last(current), s[i]) as real > limit ==>
      ParagraphGroups(s[..i + 1], limit) == paragraphs + [current] + [[s[i]]]
  {
    var gs := paragraphs + [current];
    assert s[..i + 1][..i] == s[..i];
    assert Last(gs) == current;
    assert gs[..|gs| - 1] == paragraphs;
  }

  /** Keeps a `heading` role, and otherwise gives the box role `t`. */
  function TagUnlessHeading(b: TextBox, t: TextType): TextBox {
    if b.textType == Heading then b else b.(textType := t)
  }

  /** The roles the tagging loop gives to one group. */
  function TagGroup(g: seq<TextBox>): seq<TextBox> {
    seq(|g|, j requires 0 <= j < |g| =>
      TagUnlessHeading(g[j], if j == 0 then ParagraphStart else ParagraphContent))
  }

  function TagGroups(gs: seq<seq<TextBox>>): seq<seq<TextBox>> {
    seq(|gs|, k requires 0 <= k < |gs| => TagGroup(gs[k]))
  }

  lemma TagGroupSnoc(g: seq<TextBox>, b: TextBox)
    requires g != []
    ensures TagGroup(g + [b]) == TagGroup(g) + [TagUnlessHeading(b, ParagraphContent)]
  {
  }

  lemma TagGroupsSnoc(gs: seq<seq<TextBox>>, g: seq<TextBox>)
    ensures Concat(TagGroups(gs + [g])) == Concat(TagGroups(gs)) + TagGroup(g)
  {
    assert TagGroups(gs + [g]) == TagGroups(gs) + [TagGroup(g)];
    ConcatAppend(TagGroups(gs), [TagGroup(g)]);
    ConcatSingle(TagGroup(g));
  }

  /** The roles box by box: `paragraph_start` where a paragraph opens,
      `paragraph_content` elsewhere, headings untouched. */
  function MarkParagraphs(s: seq<TextBox>, limit: real): seq<TextBox> {
    seq(|s|, i requires 0 <= i < |s| =>
      TagUnlessHeading(s[i], if StartsParagraph(s, i, limit) then ParagraphStart else ParagraphContent))
  }

  lemma MarkParagraphsSnoc(s: seq<TextBox>, limit: real)
    requires s != []
    ensures MarkParagraphs(s, limit) == MarkParagraphs(s[..|s| - 1], limit)
      + [TagUnlessHeading(Last(s), if StartsParagraph(s, |s| - 1, limit) then ParagraphStart else ParagraphContent)]
  {
    var init := s[..|s| - 1];
    forall i | 0 <= i < |init| ensures StartsParagraph(s, i, limit) == StartsParagraph(init, i, limit) {
    }
  }

  /** Tagging after the last box joined the last group. */
  lemma TagJoinLast(gs: seq<seq<TextBox>>, b: TextBox)
    requires gs != [] && Last(gs) != []
    ensures Concat(TagGroups(gs[..|gs| - 1] + [Last(gs) + [b]]))
         == Concat(TagGroups(gs)) + [TagUnlessHeading(b, ParagraphContent)]
  {
    var front := gs[..|gs| - 1];
    assert gs == front + [Last(gs)];
    TagGroupsSnoc(front, Last(gs));
    TagGroupsSnoc(front, Last(gs) + [b]);
    TagGroupSnoc(Last(gs), b);
  }

  /** Tagging after the last box opened a group of its own. */
  lemma TagNewGroup(gs: seq<seq<TextBox>>, b: TextBox)
    ensures Concat(TagGroups(gs + [[b]])) == Concat(TagGroups(gs)) + [TagUnlessHeading(b, ParagraphStart)]
  {
    TagGroupsSnoc(gs, [b]);
  }

  /** Tagging the groups one by one gives the box-by-box roles. */
  lemma {:induction false} TaggedGroupsAreMarked(s: seq<TextBox>, limit: real)
    ensures Concat(TagGroups(ParagraphGroups(s, limit))) == MarkParagraphs(s, limit)
    decreases |s|
  {
    if s != [] {
      var init := s[..|s| - 1];
      var b := Last(s);
      var gs := ParagraphGroups(init, limit);
      TaggedGroupsAreMarked(init, limit);
      MarkParagraphsSnoc(s, limit);
      if JoinsLast(s, limit) {
        TagJoinLast(gs, b);
      } else {
        TagNewGroup(gs, b);
      }
    }
  }

  /** What `identify_paragraphs` returns. */
  function ParagraphsSpec(et: ExtractedText, options: LayoutOptions): ExtractedText {
    var sorted := SortByY(et.textBoxes);
    if sorted == [] then et
    else et.(textBoxes := MarkParagraphs(sorted, Scaled(AverageHeight(sorted), options.paragraphThreshold)))
  }

  /** The grouping loop: consecutive boxes stay together while the gap
      to the previous box is within `limit`. */
  method GroupParagraphs(sorted: seq<TextBox>, limit: real) returns (paragraphs: seq<seq<TextBox>>)
    ensures paragraphs == ParagraphGroups(sorted, limit)
  {
    var currentParagraph: seq<TextBox> := [];
    paragraphs := [];
    for i := 0 to |sorted|
      invariant (i == 0) == (currentParagraph == [])
      invariant i == 0 ==> paragraphs == []
      invariant i > 0 ==> paragraphs + [currentParagraph] == ParagraphGroups(sorted[..i], limit)
    {
      var box := sorted[i];
      if currentParagraph == [] {
        currentParagraph := [box];
        assert sorted[..1][..0] == [];
        assert ParagraphGroups(sorted[..1], limit) == [[box]];
      } else {
        ParagraphGroupsStep(sorted, i, limit, paragraphs, currentParagraph);
        var prevBox := currentParagraph[|currentParagraph| - 1];
        var yDistance := box.bbox.y - (prevBox.bbox.y + prevBox.bbox.height);
        if yDistance as real <= limit {
          currentParagraph := currentParagraph + [box];
        } else {
          paragraphs := paragraphs + [currentParagraph];
          currentParagraph := [box];
        }
      }
    }
    if currentParagraph != [] {
      paragraphs := paragraphs + [currentParagraph];
    }
    assert sorted[..|sorted|] == sorted;
  }

  /** The tagging loop: the first box of each group starts a paragraph, the
      others continue it, and headings keep their role. */
  method TagParagraphs(paragraphs: seq<seq<TextBox>>) returns (updatedBoxes: seq<TextBox>)
    requires forall k :: 0 <= k < |paragraphs| ==> paragraphs[k] != []
    ensures updatedBoxes == Concat(TagGroups(paragraphs))
  {
    updatedBoxes := [];
    for k := 0 to |paragraphs|
      invariant updatedBoxes == Concat(TagGroups(paragraphs[..k]))
    {
      var paragraph := paragraphs[k];
      var first := paragraph[0];
      if first.textType != Heading {
        first := first.(textType := ParagraphStart);
      }
      var tagged := [first];
      assert tagged == TagGroup(paragraph[..1]);
      for j := 1 to |paragraph|
        invariant tagged == TagGroup(paragraph[..j])
      {
        var box := paragraph[j];
        if box.textType != Heading {
          box := box.(textType := ParagraphContent);
        }
        TagGroupSnoc(paragraph[..j], paragraph[j]);
        assert paragraph[..j + 1] == paragraph[..j] + [paragraph[j]];
        tagged := tagged + [box];
      }
      assert paragraph[..|paragraph|] == paragraph;
      assert paragraphs[..k + 1] == paragraphs[..k] + [paragraph];
      TagGroupsSnoc(paragraphs[..k], paragraph);
      updatedBoxes := updatedBoxes + tagged;
    }
    assert paragraphs[..|paragraphs|] == paragraphs;
  }

  method IdentifyParagraphs(et: ExtractedText, options: LayoutOptions) returns (r: ExtractedText)
    ensures r == ParagraphsSpec(et, options)
  {
    var sorted := SortByY(et.textBoxes);
    if sorted == [] {
      return et;
    }
    var paragraphThreshold := options.paragraphThreshold;
    var avgLineHeight := AverageHeight(sorted);
    var limit := Scaled(avgLineHeight, paragraphThreshold);
    var paragraphs := GroupParagraphs(sorted, limit);
    var updatedBoxes := TagParagraphs(paragraphs);
    TaggedGroupsAreMarked(sorted, limit);
    r := et.(textBoxes := updatedBoxes);
  }

  /** Paragraph tagging keeps the y-sorted boxes and every `heading`; any
      other box becomes `paragraph_start` exactly when it is first or its
      gap to the box above exceeds the limit, and `paragraph_content`
      otherwise. */
  lemma ParagraphsResult(et: ExtractedText, options: LayoutOptions)
    requires et.textBoxes != []
    ensures var sorted := SortByY(et.textBoxes);
      var limit := Scaled(AverageHeight(sorted), options.paragraphThreshold);
      var r := ParagraphsSpec(et, options).textBoxes;
      SameGeometry(sorted, r)
      && forall i :: 0 <= i < |r| ==>
           (sorted[i].textType == Heading ==> r[i] == sorted[i])
           && (sorted[i].textType != Heading ==>
                 r[i] == sorted[i].(textType := if StartsParagraph(sorted, i, limit) then ParagraphStart else ParagraphContent))
  {
    var sorted := SortByY(et.textBoxes);
    MarkParagraphsFacts(sorted, Scaled(AverageHeight(sorted), options.paragraphThreshold));
  }

  /** Paragraph marking keeps every box and every heading, and tags any
      other box by whether it opens a paragraph. */
  lemma MarkParagraphsFacts(s: seq<TextBox>, limit: real)
    ensures var r := MarkParagraphs(s, limit);
      SameGeometry(s, r)
      && forall i :: 0 <= i < |r| ==>
           (s[i].textType == Heading ==> r[i] == s[i])
           && (s[i].textType != Heading ==>
                 r[i] == s[i].(textType := if StartsParagraph(s, i, limit) then ParagraphStart else ParagraphContent))
  {
  }

  // -------------------------------------------------------------- list items

  /** The four marker patterns, tried in this order. */
  datatype ListMarker = Bullet | Numbered | Alphabetic | Parenthesized

  const ListMarkers: seq<ListMarker> := [Bullet, Numbered, Alphabetic, Parenthesized]

  predicate IsAsciiLetter(c: char) {
    'a' <= c <= 'z' || 'A' <= c <= 'Z'
  }

  /** The characters allowed between the brackets of a parenthesised marker. */
  predicate ParenMarkerChar(c: char) {
    IsAsciiLetter(c) || '0' <= c <= '9'
    || c in {'一', '二', '三', '四', '五', '六', '七', '八', '九', '十'}
    || '０' <= c <= '９'
  }

  /** Whether marker `m` occurs at the start of `t`, which has no leading
      whitespace. Every marker begins with a non-space character and every
      repeated class is followed by a character outside it, so the greedy
      reading of each pattern is the only one. */
  predicate MarkerAt(m: ListMarker, t: string) {
    match m
    case Bullet =>
      |t| >= 2 && t[0] in {'•', '-', '*'} && IsSpace(t[1])
    case Numbered =>
      var n := LeadingRun(t, IsDigitChar);
      n >= 1 && n + 1 < |t| && t[n] in {'.', ')'} && IsSpace(t[n + 1])
    case Alphabetic =>
      |t| >= 3 && IsAsciiLetter(t[0]) && t[1] in {'.', ')'} && IsSpace(t[2])
    case Parenthesized =>
      |t| >= 1 && t[0] in {'(', '（'}
      && var n := LeadingRun(t[1..], ParenMarkerChar);
      n >= 1 && n + 2 < |t| && t[n + 1] in {')', '）'} && IsSpace(t[n + 2])
  }

  /** `re.match(pattern, text)` for the marker: optional leading whitespace, then the marker. */
  predicate MatchesMarker(m: ListMarker, text: string) {
    MarkerAt(m, LStrip(text))
  }

  predicate IsListItemText(text: string) {
    exists q :: 0 <= q < |ListMarkers| && MatchesMarker(ListMarkers[q], text)
  }

  function MarkListItems(boxes: seq<TextBox>): seq<TextBox> {
    seq(|boxes|, i requires 0 <= i < |boxes| =>
      if IsListItemText(boxes[i].text) then boxes[i].(textType := ListItem) else boxes[i])
  }

  /** What `identify_list_items` returns: the boxes in their order, with
      `list_item` on those that open with a marker. */
  function ListItemsSpec(et: ExtractedText): ExtractedText {
    et.(textBoxes := MarkListItems(et.textBoxes))
  }

  method IdentifyListItems(et: ExtractedText) returns (r: ExtractedText)
    ensures r == ListItemsSpec(et)
  {
    var textBoxes := et.textBoxes;
    var updatedBoxes: seq<TextBox> := [];
    for i := 0 to |textBoxes|
      invariant |updatedBoxes| == i
      invariant forall k :: 0 <= k < i ==> updatedBoxes[k] == MarkListItems(textBoxes)[k]
    {
      var box := TagListItem(textBoxes[i]);
      updatedBoxes := updatedBoxes + [box];
    }
    assert updatedBoxes == MarkListItems(textBoxes);
    r := et.(textBoxes := updatedBoxes);
  }

  /** The marker loop for one box: the first marker that matches tags it. */
  method TagListItem(original: TextBox) returns (box: TextBox)
    ensures box == if IsListItemText(original.text) then original.(textType := ListItem) else original
  {
    box := original;
    var m := 0;
    var matched := false;
    while m < |ListMarkers| && !matched
      invariant 0 <= m <= |ListMarkers|
      invariant box == if matched then original.(textType := ListItem) else original
      invariant matched ==> IsListItemText(original.text)
      invariant !matched ==> forall q :: 0 <= q < m ==> !MatchesMarker(ListMarkers[q], original.text)
    {
      if MatchesMarker(ListMarkers[m], box.text) {
        box := box.(textType := ListItem);
        matched := true;
        assert MatchesMarker(ListMarkers[m], original.text);
      }
      m := m + 1;
    }
  }

  /** List tagging keeps the order and the boxes; it overrides any earlier
      role of a box with a marker and leaves every other box as it was. */
  lemma ListItemsResult(et: ExtractedText)
    ensures var r := ListItemsSpec(et).textBoxes;
      SameGeometry(et.textBoxes, r)
      && (forall i :: 0 <= i < |r| ==>
            (r[i].textType == ListItem || r[i] == et.textBoxes[i])
            && r[i] == et.textBoxes[i].(textType := r[i].textType))
      && (forall i :: 0 <= i < |r| && et.textBoxes[i].textType != ListItem ==>
            (r[i].textType == ListItem <==> IsListItemText(et.textBoxes[i].text)))
  {
  }

  // ------------------------------------------------------------------ layout

  /** What `analyze_layout` returns: headings, then paragraphs, then list items. */
  function LayoutSpec(et: ExtractedText, options: LayoutOptions): ExtractedText {
    ListItemsSpec(ParagraphsSpec(HeadingsSpec(et, options), options))
  }

  /** The three stages in order, each failure wrapped as a structure
      analysis error. None of the modelled stages can fail, so the result
      is always a success. */
  method AnalyzeLayout(et: ExtractedText, options: LayoutOptions) returns (r: Result<ExtractedText, Error>)
    ensures r == Ok(LayoutSpec(et, options))
  {
    var extracted := IdentifyHeadings(et, options);
    extracted := IdentifyParagraphs(extracted, options);
    extracted := IdentifyListItems(extracted);
    return Ok(extracted);
  }

  /** An empty page comes back unchanged from the paragraph stage, the list
      stage and the whole layout pass. */
  lemma LayoutOfEmpty(et: ExtractedText, options: LayoutOptions)
    requires et.textBoxes == []
    ensures ParagraphsSpec(et, options) == et
    ensures ListItemsSpec(et) == et
    ensures LayoutSpec(et, options) == et
  {
    HeadingsOfEmpty(et, options);
    assert MarkListItems(et.textBoxes) == [];
  }

  /** The role the whole pipeline gives to box `i` of the y-sorted page. */
  function LayoutRole(sorted: seq<TextBox>, i: nat, options: LayoutOptions): TextType
    requires i < |sorted|
  {
    var avg := AverageHeight(sorted);
    if IsListItemText(sorted[i].text) then ListItem
    else if sorted[i].textType == Heading || IsHeadingAt(sorted, i, avg, options.headingSizeThreshold) then Heading
    else if StartsParagraph(sorted, i, Scaled(avg, options.paragraphThreshold)) then ParagraphStart
    else ParagraphContent
  }

  /** After `analyze_layout` the page holds its boxes in stable y order, and
      each box's role is decided by a list marker first, then the heading
      tests, then the paragraph gap. Paragraph tagging sees the same order,
      the same average height and the same gaps as heading tagging did,
      because heading tagging changes roles only. */
  lemma LayoutRoles(et: ExtractedText, options: LayoutOptions)
    requires et.textBoxes != []
    ensures var sorted := SortByY(et.textBoxes);
      var r := LayoutSpec(et, options);
      r == et.(textBoxes := r.textBoxes)
      && SameGeometry(sorted, r.textBoxes)
      && forall i :: 0 <= i < |sorted| ==> r.textBoxes[i] == sorted[i].(textType := LayoutRole(sorted, i, options))
  {
    var sorted := SortByY(et.textBoxes);
    var avg := AverageHeight(sorted);
    var hs := HeadingsSpec(et, options);
    var h := hs.textBoxes;
    HeadingStageKeepsOrder(et, options);
    var limit := Scaled(avg, options.paragraphThreshold);
    var p := MarkParagraphs(h, limit);
    assert ParagraphsSpec(hs, options) == et.(textBoxes := p);
    var r := MarkListItems(p);
    assert LayoutSpec(et, options) == et.(textBoxes := r);
    forall i | 0 <= i < |sorted|
      ensures r[i] == sorted[i].(textType := LayoutRole(sorted, i, options))
    {
      LayoutRoleAt(sorted, i, options);
    }
  }

  /** The three stages, run on the y-sorted boxes, give box `i` its role. */
  lemma LayoutRoleAt(sorted: seq<TextBox>, i: nat, options: LayoutOptions)
    requires i < |sorted|
    ensures var avg := AverageHeight(sorted);
      var h := MarkHeadings(sorted, avg, options.headingSizeThreshold);
      MarkListItems(MarkParagraphs(h, Scaled(avg, options.paragraphThreshold)))[i]
        == sorted[i].(textType := LayoutRole(sorted, i, options))
  {
    var avg := AverageHeight(sorted);
    var h := MarkHeadings(sorted, avg, options.headingSizeThreshold);
    if i > 0 {
      assert Gap(h[i - 1], h[i]) == Gap(sorted[i - 1], sorted[i]);
    }
  }

  /** Heading tagging keeps the y order and the average height the later
      stages compute. */
  lemma HeadingStageKeepsOrder(et: ExtractedText, options: LayoutOptions)
    requires et.textBoxes != []
    ensures var sorted := SortByY(et.textBoxes);
      var h := HeadingsSpec(et, options).textBoxes;
      SameGeometry(h, sorted) && SortByY(h) == h && AverageHeight(h) == AverageHeight(sorted)
      && h == MarkHeadings(sorted, AverageHeight(sorted), options.headingSizeThreshold)
  {
    var sorted := SortByY(et.textBoxes);
    var h := HeadingsSpec(et, options).textBoxes;
    HeadingsResult(et, options);
    SortBySorted(h, YKey);
    SameGeometryHeights(sorted, h);
  }

}
