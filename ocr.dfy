/** The OCR post-processing of src/image_processing/ocr.py: the Tesseract
    configuration string, the conversion of the engine's column-wise
    output into text boxes, and the derived fields of `extract_text`.
    The engine itself (PIL, pytesseract, EasyOCR) is not modelled: what
    it returns on each attempt is a parameter. */
module Ocr {
  import opened Wrappers
  import opened Exceptions
  import opened Builtins
  import opened Models
  import opened ErrorHandling

  /** The OCR options the module reads, with their defaults. */
  datatype OcrOptions = OcrOptions(
    language: string := "jpn+eng",
    ocrEngineMode: int := 1,
    pageSegmentationMode: int := 3,
    enableJapaneseVertical: bool := false,
    preserveInterwordSpaces: bool := true)

  const VerticalOption: string := "textord_direction_flag=1"
  const InterwordOption: string := "preserve_interword_spaces=1"
  const VerticalFlag: string := "-c \"" + VerticalOption + "\""
  const InterwordFlag: string := "-c \"" + InterwordOption + "\""

  // ------------------------------------------------------ build_tesseract_config

  /** The optional flags, in the order they are appended. */
  function Flags(options: OcrOptions): seq<string> {
    (if options.enableJapaneseVertical then [VerticalFlag] else [])
    + (if options.preserveInterwordSpaces then [InterwordFlag] else [])
  }

  /** `--oem` with the engine mode. */
  function OemPart(options: OcrOptions): string {
    "--oem " + IntToString(options.ocrEngineMode)
  }

  /** `--psm` with the page segmentation mode. */
  function PsmPart(options: OcrOptions): string {
    "--psm " + IntToString(options.pageSegmentationMode)
  }

  /** The pieces of the configuration: both modes, then the flags. */
  function ConfigParts(options: OcrOptions): seq<string> {
    [OemPart(options), PsmPart(options)] + Flags(options)
  }

  /** The two modes, separated by a space. */
  function Head(options: OcrOptions): string {
    OemPart(options) + (" " + PsmPart(options))
  }

  method BuildTesseractConfig(options: OcrOptions) returns (config: string)
    ensures config == Join(" ", ConfigParts(options))
  {
    var configParts: seq<string> := [];
    configParts := configParts + [OemPart(options)];
    configParts := configParts + [PsmPart(options)];
    if options.enableJapaneseVertical {
      configParts := configParts + [VerticalFlag];
    }
    if options.preserveInterwordSpaces {
      configParts := configParts + [InterwordFlag];
    }
    assert configParts == ConfigParts(options);
    config := Join(" ", configParts);
  }

  /** Each part after a separator. */
  function Prefixed(sep: string, parts: seq<string>): string {
    if parts == [] then [] else sep + parts[0] + Prefixed(sep, parts[1..])
  }

  /** A join is the first part followed by the others, each after the
      separator. */
  lemma {:induction false} JoinPrefixed(sep: string, parts: seq<string>)
    requires parts != []
    ensures Join(sep, parts) == parts[0] + Prefixed(sep, parts[1..])
  {
    if |parts| > 1 {
      JoinPrefixed(sep, parts[1..]);
      assert Prefixed(sep, parts[1..]) == sep + parts[1] + Prefixed(sep, parts[2..]) by {
        assert parts[1..][1..] == parts[2..];
      }
    } else {
      assert parts[1..] == [];
    }
  }

  /** The configuration: engine mode, page segmentation mode, then each
      flag that is on, all separated by single spaces. */
  lemma ConfigShape(options: OcrOptions)
    ensures Join(" ", ConfigParts(options)) == Head(options) + Prefixed(" ", Flags(options))
  {
    JoinTwoThen(" ", OemPart(options), PsmPart(options), Flags(options));
  }

  /** Two parts and then more: the first, the separator, the second, and
      each further part after the separator. */
  lemma JoinTwoThen(sep: string, a: string, b: string, rest: seq<string>)
    ensures Join(sep, [a, b] + rest) == a + (sep + b) + Prefixed(sep, rest)
  {
    var parts := [a, b] + rest;
    JoinPrefixed(sep, parts);
    assert parts[1..][1..] == rest && parts[1..][0] == b && parts[0] == a;
  }

  /** A string starts with any of its prefixes. */
  lemma StartsWithPrefix(a: string, b: string)
    ensures StartsWith(a + b, a)
  {
    assert (a + b)[..|a|] == a;
  }

  /** An occurrence of `p` between `a` and `c` is one in `a + p + c`. */
  lemma ContainsInfix(a: string, p: string, c: string)
    ensures Contains(a + p + c, p)
  {
    var s := a + p + c;
    assert s[|a|..|a| + |p|] == p;
    assert OccursAt(s, p, |a|);
  }

  /** A string that lacks a character of `p` does not contain `p`. */
  lemma MissingCharNotContained(s: string, p: string, c: char)
    requires c in p && c !in s
    ensures !Contains(s, p)
  {
  }

  lemma IntToStringDigits(n: int, c: char)
    requires c != '-' && !('0' <= c <= '9')
    ensures c !in IntToString(n)
  {
    var s := NatToString(if n < 0 then -n else n);
    assert c !in s;
  }

  /** With no options set the configuration is LSTM only, automatic page
      segmentation, and interword spaces preserved. */
  lemma DefaultConfig()
    ensures Join(" ", ConfigParts(OcrOptions())) == "--oem 1 --psm 3 " + InterwordFlag
  {
    var d := OcrOptions();
    assert IntToString(1) == "1" && IntToString(3) == "3";
    assert Head(d) == "--oem 1 --psm 3";
    assert Flags(d) == [InterwordFlag];
    PrefixedOne(" ", InterwordFlag);
    ConfigShape(d);
    DefaultTail(Head(d), Prefixed(" ", Flags(d)), InterwordFlag);
  }

  lemma PrefixedOne(sep: string, x: string)
    ensures Prefixed(sep, [x]) == sep + x
  {
    assert [x][1..] == [];
  }

  lemma DefaultTail(head: string, flags: string, x: string)
    requires head == "--oem 1 --psm 3" && flags == " " + x
    ensures head + flags == "--oem 1 --psm 3 " + x
  {
  }

  /** The configuration starts with the engine mode and then the page
      segmentation mode. */
  lemma ConfigModes(options: OcrOptions)
    ensures StartsWith(Join(" ", ConfigParts(options)),
                       "--oem " + IntToString(options.ocrEngineMode) + " " + "--psm " + IntToString(options.pageSegmentationMode))
  {
    ConfigShape(options);
    assert Head(options) == "--oem " + IntToString(options.ocrEngineMode) + " " + "--psm " + IntToString(options.pageSegmentationMode);
    StartsWithPrefix(Head(options), Prefixed(" ", Flags(options)));
  }

  /** The vertical-text option holds an `x`, which no other part holds. */
  lemma VerticalChars()
    ensures 'x' in VerticalOption && 'x' !in InterwordFlag
    ensures 'x' !in "--oem " && 'x' !in "--psm " && 'x' !in " "
  {
    assert VerticalOption[2] == 'x';
  }

  /** The interword option holds a `v`, which no other part holds. */
  lemma InterwordChars()
    ensures 'v' in InterwordOption && 'v' !in VerticalFlag
    ensures 'v' !in "--oem " && 'v' !in "--psm " && 'v' !in " "
  {
    assert InterwordOption[6] == 'v';
  }

  /** The flags hold a character exactly when a flag that is on holds it. */
  lemma FlagsChar(options: OcrOptions, c: char)
    ensures c in Prefixed(" ", Flags(options)) <==>
      (c in " " && Flags(options) != [])
      || (options.enableJapaneseVertical && c in VerticalFlag)
      || (options.preserveInterwordSpaces && c in InterwordFlag)
  {
    var flags := Flags(options);
    if |flags| == 2 {
      assert flags[1..] == [InterwordFlag] && flags[0] == VerticalFlag;
      assert Prefixed(" ", [InterwordFlag]) == " " + InterwordFlag + [];
    } else if |flags| == 1 {
      assert flags[1..] == [];
    }
  }

  /** A flag `open + option + close` after a space puts its option into
      the string. */
  lemma FlagInfix(head: string, flag: string, open: string, option: string, close: string, rest: string)
    requires flag == open + option + close
    ensures Contains(head + (" " + flag + rest), option)
  {
    ContainsInfix(head + " " + open, option, close + rest);
    assert head + (" " + flag + rest) == head + " " + open + option + (close + rest);
  }

  lemma PrefixedSnoc(sep: string, parts: seq<string>, x: string)
    ensures Prefixed(sep, parts + [x]) == Prefixed(sep, parts) + (sep + x)
  {
    if parts == [] {
      assert parts + [x] == [x] && [x][1..] == [];
    } else {
      assert (parts + [x])[1..] == parts[1..] + [x];
      PrefixedSnoc(sep, parts[1..], x);
    }
  }

  lemma VerticalOn(options: OcrOptions)
    requires options.enableJapaneseVertical
    ensures Contains(Join(" ", ConfigParts(options)), VerticalOption)
  {
    var head := Head(options);
    ConfigShape(options);
    var rest := Prefixed(" ", Flags(options)[1..]);
    assert Prefixed(" ", Flags(options)) == " " + VerticalFlag + rest;
    FlagInfix(head, VerticalFlag, "-c \"", VerticalOption, "\"", rest);
  }

  lemma VerticalOff(options: OcrOptions)
    requires !options.enableJapaneseVertical
    ensures !Contains(Join(" ", ConfigParts(options)), VerticalOption)
  {
    ConfigShape(options);
    IntToStringDigits(options.ocrEngineMode, 'x');
    IntToStringDigits(options.pageSegmentationMode, 'x');
    VerticalChars();
    FlagsChar(options, 'x');
    MissingCharNotContained(Join(" ", ConfigParts(options)), VerticalOption, 'x');
  }

  /** It asks for vertical text exactly when `enable_japanese_vertical` is
      set. */
  lemma ConfigVertical(options: OcrOptions)
    ensures Contains(Join(" ", ConfigParts(options)), VerticalOption) <==> options.enableJapaneseVertical
  {
    if options.enableJapaneseVertical {
      VerticalOn(options);
    } else {
      VerticalOff(options);
    }
  }

  lemma LastFlag(head: string, first: seq<string>, x: string, flags: seq<string>)
    requires flags == first + [x]
    ensures head + Prefixed(" ", flags) == head + Prefixed(" ", first) + (" " + x + [])
  {
    PrefixedSnoc(" ", first, x);
  }

  /** With interword spaces on, their flag comes last. */
  lemma InterwordLast(options: OcrOptions, before: string)
    requires options.preserveInterwordSpaces
    requires before == Head(options) + Prefixed(" ", if options.enableJapaneseVertical then [VerticalFlag] else [])
    ensures Join(" ", ConfigParts(options)) == before + (" " + InterwordFlag + [])
  {
    var first := if options.enableJapaneseVertical then [VerticalFlag] else [];
    ConfigShape(options);
    LastFlag(Head(options), first, InterwordFlag, Flags(options));
  }

  lemma InterwordOn(options: OcrOptions)
    requires options.preserveInterwordSpaces
    ensures Contains(Join(" ", ConfigParts(options)), InterwordOption)
  {
    var before := Head(options) + Prefixed(" ", if options.enableJapaneseVertical then [VerticalFlag] else []);
    InterwordLast(options, before);
    FlagInfix(before, InterwordFlag, "-c \"", InterwordOption, "\"", []);
  }

  lemma InterwordOff(options: OcrOptions)
    requires !options.preserveInterwordSpaces
    ensures !Contains(Join(" ", ConfigParts(options)), InterwordOption)
  {
    ConfigShape(options);
    IntToStringDigits(options.ocrEngineMode, 'v');
    IntToStringDigits(options.pageSegmentationMode, 'v');
    InterwordChars();
    FlagsChar(options, 'v');
    MissingCharNotContained(Join(" ", ConfigParts(options)), InterwordOption, 'v');
  }

  /** It asks for interword spaces exactly when `preserve_interword_spaces`
      is not switched off. */
  lemma ConfigInterword(options: OcrOptions)
    ensures Contains(Join(" ", ConfigParts(options)), InterwordOption) <==> options.preserveInterwordSpaces
  {
    if options.preserveInterwordSpaces {
      InterwordOn(options);
    } else {
      InterwordOff(options);
    }
  }

  // ---------------------------------------------------------- extract_text_boxes

  /** The columns of the engine's dictionary output that are read. */
  datatype OcrData = OcrData(
    text: seq<string>, conf: seq<real>, left: seq<int>, top: seq<int>,
    width: seq<int>, height: seq<int>, level: seq<int>)

  /** The engine's columns all have one entry per detected item. */
  type OcrTable = d: OcrData |
    |d.conf| == |d.text| && |d.left| == |d.text| && |d.top| == |d.text|
    && |d.width| == |d.text| && |d.height| == |d.text| && |d.level| == |d.text|
    witness OcrData([], [], [], [], [], [], [])

  /** `int(x)` for a float: truncation toward zero. */
  function Trunc(x: real): int {
    if x >= 0.0 then x.Floor else -((-x).Floor)
  }

  /** Truncation makes a confidence negative only from -1 down, so
      confidences between -1 and 0 survive the filter. */
  lemma TruncNegative(x: real)
    ensures Trunc(x) < 0 <==> x <= -1.0
  {
  }

  /** Item `i` is kept: its truncated confidence is not negative and its
      text is not blank. */
  predicate Kept(d: OcrTable, i: nat)
    requires i < |d.text|
  {
    Trunc(d.conf[i]) >= 0 && Strip(d.text[i]) != ""
  }

  /** OCR levels 2, 3 and 4 are paragraphs, lines and words. */
  function LevelType(level: int): TextType {
    if level == 2 then Paragraph
    else if level == 3 then Line
    else if level == 4 then Word
    else Regular
  }

  /** The box built from item `i`. */
  function BoxAt(d: OcrTable, i: nat): TextBox
    requires i < |d.text|
  {
    TextBox(d.text[i], BoundingBox(d.left[i], d.top[i], d.width[i], d.height[i]), d.conf[i], LevelType(d.level[i]))
  }

  /** The boxes of the first `n` items that are kept, in order. */
  function BoxesSpec(d: OcrTable, n: nat): seq<TextBox>
    requires n <= |d.text|
  {
    if n == 0 then []
    else BoxesSpec(d, n - 1) + (if Kept(d, n - 1) then [BoxAt(d, n - 1)] else [])
  }

  /** The positions of the first `n` items that are kept, in order. */
  function KeptIndices(d: OcrTable, n: nat): seq<nat>
    requires n <= |d.text|
  {
    if n == 0 then []
    else KeptIndices(d, n - 1) + (if Kept(d, n - 1) then [n - 1] else [])
  }

  method ExtractTextBoxes(ocrData: OcrTable) returns (textBoxes: seq<TextBox>)
    ensures textBoxes == BoxesSpec(ocrData, |ocrData.text|)
  {
    textBoxes := [];
    var nBoxes := |ocrData.text|;
    for i := 0 to nBoxes
      invariant textBoxes == BoxesSpec(ocrData, i)
    {
      if Trunc(ocrData.conf[i]) < 0 || Strip(ocrData.text[i]) == "" {
        continue;
      }
      var bbox := BoundingBox(ocrData.left[i], ocrData.top[i], ocrData.width[i], ocrData.height[i]);
      var textType := Regular;
      if ocrData.level[i] == 2 {
        textType := Paragraph;
      } else if ocrData.level[i] == 3 {
        textType := Line;
      } else if ocrData.level[i] == 4 {
        textType := Word;
      }
      var textBox := TextBox(ocrData.text[i], bbox, ocrData.conf[i], textType);
      textBoxes := textBoxes + [textBox];
    }
  }

  /** The indices of the kept items rise strictly and are exactly the kept
      items; the k-th box is built from the k-th of them. */
  lemma {:induction false} BoxesSpecIndices(d: OcrTable, n: nat)
    requires n <= |d.text|
    ensures var idx, boxes := KeptIndices(d, n), BoxesSpec(d, n);
      && |boxes| == |idx| <= n
      && (forall k :: 0 <= k < |idx| ==> idx[k] < n && boxes[k] == BoxAt(d, idx[k]))
      && (forall k, l :: 0 <= k < l < |idx| ==> idx[k] < idx[l])
      && (forall i :: 0 <= i < n ==> (Kept(d, i) <==> i in idx))
  {
    if n > 0 {
      BoxesSpecIndices(d, n - 1);
    }
  }

  /** What `extract_text_boxes` returns: no more boxes than items; each
      box carries the text, geometry and confidence of one kept item, in
      input order, with the type its OCR level gives; every kept item has
      its box; no box has blank text or a confidence of -1 or below. */
  lemma ExtractTextBoxesResult(d: OcrTable)
    ensures var boxes, idx := BoxesSpec(d, |d.text|), KeptIndices(d, |d.text|);
      && |boxes| == |idx| <= |d.text|
      && (forall k :: 0 <= k < |idx| ==>
            idx[k] < |d.text| && Kept(d, idx[k])
            && boxes[k].text == d.text[idx[k]] && boxes[k].confidence == d.conf[idx[k]]
            && boxes[k].bbox == BoundingBox(d.left[idx[k]], d.top[idx[k]], d.width[idx[k]], d.height[idx[k]])
            && boxes[k].textType == LevelType(d.level[idx[k]]))
      && (forall k, l :: 0 <= k < l < |idx| ==> idx[k] < idx[l])
      && (forall i :: 0 <= i < |d.text| && Kept(d, i) ==> i in idx)
      && (forall k :: 0 <= k < |boxes| ==> !IsBlank(boxes[k].text) && boxes[k].confidence > -1.0)
  {
    var n := |d.text|;
    BoxesSpecIndices(d, n);
    var boxes, idx := BoxesSpec(d, n), KeptIndices(d, n);
    forall k | 0 <= k < |boxes| ensures !IsBlank(boxes[k].text) && boxes[k].confidence > -1.0 {
      assert idx[k] in idx;
      StripEmptyIffBlank(d.text[idx[k]]);
      TruncNegative(d.conf[idx[k]]);
    }
  }

  // ---------------------------------------------------------------- extract_text

  /** `lang.split('+')[0]`. */
  function PrimaryLanguage(lang: string): string {
    Split(lang, '+')[0]
  }

  /** The primary language is the language option up to its first '+';
      the default "jpn+eng" gives "jpn". */
  lemma PrimaryLanguageSpec(lang: string)
    ensures var r := PrimaryLanguage(lang);
      && '+' !in r && |r| <= |lang| && r == lang[..|r|] && (|r| == |lang| || lang[|r|] == '+')
    ensures PrimaryLanguage("jpn+eng") == "jpn"
  {
    SplitFirst(lang, '+');
    assert "jpn+eng" == "jpn" + ['+'] + "eng";
    SplitAtSeparator("jpn", "eng", '+');
  }

  /** The texts of the boxes whose text is not blank. */
  function NonBlankTexts(boxes: seq<TextBox>): seq<string> {
    if boxes == [] then []
    else (if Strip(boxes[0].text) != "" then [boxes[0].text] else []) + NonBlankTexts(boxes[1..])
  }

  function Texts(boxes: seq<TextBox>): (ts: seq<string>)
    ensures |ts| == |boxes| && forall k :: 0 <= k < |boxes| ==> ts[k] == boxes[k].text
  {
    if boxes == [] then [] else [boxes[0].text] + Texts(boxes[1..])
  }

  lemma {:induction false} NonBlankTextsAppend(a: seq<TextBox>, b: seq<TextBox>)
    ensures NonBlankTexts(a + b) == NonBlankTexts(a) + NonBlankTexts(b)
  {
    if a == [] {
      assert a + b == b;
    } else {
      assert (a + b)[0] == a[0] && (a + b)[1..] == a[1..] + b;
      NonBlankTextsAppend(a[1..], b);
    }
  }

  /** The boxes `extract_text_boxes` returns all have text, so the raw text
      joins all of their texts. */
  lemma {:induction false} NonBlankOfExtracted(d: OcrTable, n: nat)
    requires n <= |d.text|
    ensures NonBlankTexts(BoxesSpec(d, n)) == Texts(BoxesSpec(d, n))
  {
    if n > 0 {
      NonBlankOfExtracted(d, n - 1);
      var a, b := BoxesSpec(d, n - 1), if Kept(d, n - 1) then [BoxAt(d, n - 1)] else [];
      NonBlankTextsAppend(a, b);
      if b != [] {
        assert b[1..] == [];
      }
      assert Texts(a + b) == Texts(a) + Texts(b);
    }
  }

  /** The confidences above zero. */
  function PositiveConfidences(boxes: seq<TextBox>): seq<real> {
    if boxes == [] then []
    else (if boxes[0].confidence > 0.0 then [boxes[0].confidence] else []) + PositiveConfidences(boxes[1..])
  }

  function Sum(xs: seq<real>): real {
    if xs == [] then 0.0 else xs[0] + Sum(xs[1..])
  }

  /** The mean of the positive confidences, 0 when there are none. */
  function AverageConfidence(boxes: seq<TextBox>): real {
    var cs := PositiveConfidences(boxes);
    if cs == [] then 0.0 else Sum(cs) / |cs| as real
  }

  lemma {:induction false} PositiveConfidencesPositive(boxes: seq<TextBox>)
    ensures var cs := PositiveConfidences(boxes);
      0.0 <= Sum(cs) && (cs != [] ==> Sum(cs) > 0.0)
  {
    if boxes != [] {
      PositiveConfidencesPositive(boxes[1..]);
      var rest := PositiveConfidences(boxes[1..]);
      if boxes[0].confidence > 0.0 {
        assert ([boxes[0].confidence] + rest)[1..] == rest;
      } else {
        assert PositiveConfidences(boxes) == [] + rest == rest;
      }
    }
  }

  /** Tesseract reports confidences of at most 100. */
  lemma {:induction false} PositiveConfidencesBounded(boxes: seq<TextBox>)
    requires forall k :: 0 <= k < |boxes| ==> boxes[k].confidence <= 100.0
    ensures var cs := PositiveConfidences(boxes);
      Sum(cs) <= 100.0 * |cs| as real
  {
    if boxes != [] {
      PositiveConfidencesBounded(boxes[1..]);
      var rest := PositiveConfidences(boxes[1..]);
      if boxes[0].confidence > 0.0 {
        var cs := [boxes[0].confidence] + rest;
        assert Sum(cs) == boxes[0].confidence + Sum(rest) by {
          assert cs[1..] == rest;
        }
      } else {
        assert PositiveConfidences(boxes) == [] + rest == rest;
      }
    }
  }

  lemma DivBounds(s: real, n: real)
    requires n > 0.0 && 0.0 < s
    ensures 0.0 < s / n
    ensures s <= 100.0 * n ==> s / n <= 100.0
  {
  }

  /** The average is not negative, and is positive when some confidence is. */
  lemma AverageConfidencePositive(boxes: seq<TextBox>)
    ensures 0.0 <= AverageConfidence(boxes)
    ensures PositiveConfidences(boxes) != [] ==> 0.0 < AverageConfidence(boxes)
  {
    PositiveConfidencesPositive(boxes);
    var cs := PositiveConfidences(boxes);
    if cs != [] {
      DivBounds(Sum(cs), |cs| as real);
    }
  }

  /** With Tesseract's confidences of at most 100 the average is at most 100. */
  lemma AverageConfidenceAtMost100(boxes: seq<TextBox>)
    requires forall k :: 0 <= k < |boxes| ==> boxes[k].confidence <= 100.0
    ensures AverageConfidence(boxes) <= 100.0
  {
    PositiveConfidencesPositive(boxes);
    PositiveConfidencesBounded(boxes);
    var cs := PositiveConfidences(boxes);
    if cs != [] {
      DivBounds(Sum(cs), |cs| as real);
    }
  }

  /** The extracted text built from one engine result. */
  function ExtractedFrom(d: OcrTable, options: OcrOptions): ExtractedText {
    var boxes := BoxesSpec(d, |d.text|);
    ExtractedText(boxes, [], Join(" ", NonBlankTexts(boxes)), PrimaryLanguage(options.language), AverageConfidence(boxes))
  }

  /** One run of the body of `extract_text`: `engine` is what the engine
      returned or raised; any exception leaves as an OCRError. */
  function ExtractOnceSpec(engine: Result<OcrTable, Error>, imageId: string, options: OcrOptions): Result<ExtractedText, Error> {
    WrapErrors(OcrError, "OCR failed for image " + imageId,
      match engine
      case Err(e) => Err(e)
      case Ok(d) => Ok(ExtractedFrom(d, options)))
  }

  method ExtractOnce(engine: Result<OcrTable, Error>, imageId: string, options: OcrOptions)
    returns (r: Result<ExtractedText, Error>)
    ensures r == ExtractOnceSpec(engine, imageId, options)
  {
    var lang := options.language;
    var inner: Result<ExtractedText, Error>;
    if engine.Err? {
      inner := Err(engine.error);
    } else {
      var textBoxes := ExtractTextBoxes(engine.value);
      var texts: seq<string> := [];
      for k := 0 to |textBoxes|
        invariant texts == NonBlankTexts(textBoxes[..k])
      {
        assert textBoxes[..k + 1] == textBoxes[..k] + [textBoxes[k]];
        NonBlankTextsAppend(textBoxes[..k], [textBoxes[k]]);
        assert [textBoxes[k]][1..] == [];
        if Strip(textBoxes[k].text) != "" {
          texts := texts + [textBoxes[k].text];
        }
      }
      assert textBoxes[..|textBoxes|] == textBoxes;
      var rawText := Join(" ", texts);
      var avgConfidence := AverageConfidence(textBoxes);
      inner := Ok(ExtractedText(textBoxes, [], rawText, PrimaryLanguage(lang), avgConfidence));
    }
    r := WrapErrors(OcrError, "OCR failed for image " + imageId, inner);
  }

  /** A failure carries the image id and the original message; a success
      joins all box texts with spaces, names the primary language and has
      a non-negative confidence. */
  lemma ExtractOnceResult(engine: Result<OcrTable, Error>, imageId: string, options: OcrOptions)
    ensures var r := ExtractOnceSpec(engine, imageId, options);
      && (engine.Err? <==> r.Err?)
      && (r.Err? ==> r.error == Error(OcrError, "OCR failed for image " + imageId + ": " + engine.error.message))
      && (r.Ok? ==>
            r.value.textBoxes == BoxesSpec(engine.value, |engine.value.text|)
            && r.value.rawText == Join(" ", Texts(r.value.textBoxes))
            && '+' !in r.value.language
            && r.value.confidence >= 0.0)
  {
    if engine.Ok? {
      var d := engine.value;
      NonBlankOfExtracted(d, |d.text|);
      PrimaryLanguageSpec(options.language);
      var boxes := BoxesSpec(d, |d.text|);
      AverageConfidencePositive(boxes);
    }
  }

  /** `extract_text` under `retry(max_attempts=2, exceptions=(OCRError,))`:
      `engine[k]` is the engine's result on attempt k. Every failure is an
      OCRError, so a failed first attempt is always retried once. The
      configuration handed to the engine is returned with the result. */
  method ExtractText(engine: seq<Result<OcrTable, Error>>, imageId: string, options: OcrOptions)
    returns (r: Result<ExtractedText, Error>, calls: nat, config: string)
    requires |engine| >= 2
    ensures calls == 1 || calls == 2
    ensures calls == 2 <==> engine[0].Err?
    ensures r == ExtractOnceSpec(engine[calls - 1], imageId, options)
    ensures config == Join(" ", ConfigParts(options))
  {
    config := BuildTesseractConfig(options);
    var first := ExtractOnce(engine[0], imageId, options);
    var second := ExtractOnce(engine[1], imageId, options);
    var outcomes := [first, second];
    var retried, delays;
    retried, calls, delays := Retry(2, 1.0, 2.0, {OcrError}, outcomes);
    assert IsA(OcrError, OcrError);
    assert Catches({OcrError}, OcrError);
    ExtractOnceResult(engine[0], imageId, options);
    ExtractOnceResult(engine[1], imageId, options);
    assert outcomes[0] == first && outcomes[1] == second;
    assert first.Err? ==> first.error.kind == OcrError;
    assert calls == 1 || calls == 2;
    assert engine[0].Err? ==> calls == 2;
    assert engine[0].Ok? ==> calls == 1;
    assert retried.Err? || retried.value.Some?;
    r := if retried.Err? then Err(retried.error) else Ok(retried.value.value);
  }
}
