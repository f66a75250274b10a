/** The document model of src/models/__init__.py: pydantic models become
    datatypes, field defaults become constructor defaults, and value
    equality of pydantic models is Dafny's structural equality. A section
    owns its subsections, so the sections form a finite tree without back
    references. `Dict[str, Any]` attributes are modelled as string maps. */
module Models {
  import opened Wrappers

  datatype BoundingBox = BoundingBox(x: int, y: int, width: int, height: int)

  /** The values the pipeline writes into `text_type`: the OCR levels,
      then the roles the layout stage assigns. */
  datatype TextType = Regular | Paragraph | Line | Word | Heading | ParagraphStart | ParagraphContent | ListItem

  /** The string the source stores for each value. */
  function TypeName(t: TextType): string {
    match t
    case Regular => "regular"
    case Paragraph => "paragraph"
    case Line => "line"
    case Word => "word"
    case Heading => "heading"
    case ParagraphStart => "paragraph_start"
    case ParagraphContent => "paragraph_content"
    case ListItem => "list_item"
  }

  /** A detected text region; `textType` is the role later stages assign. */
  datatype TextBox = TextBox(text: string, bbox: BoundingBox, confidence: real, textType: TextType := Regular)

  datatype MathExpression = MathExpression(expression: string, latex: Option<string> := None, bbox: BoundingBox, confidence: real)

  datatype ExtractedText = ExtractedText(
    textBoxes: seq<TextBox> := [],
    mathExpressions: seq<MathExpression> := [],
    rawText: string := "",
    language: string := "ja",
    confidence: real := 0.0)

  datatype ContentElement = ContentElement(elementType: string, content: string, attributes: map<string, string> := map[])

  datatype ContentSection = ContentSection(
    level: int,
    title: Option<string> := None,
    elements: seq<ContentElement> := [],
    subsections: seq<ContentSection> := [])

  datatype ContentStructure = ContentStructure(
    title: Option<string> := None,
    subtitle: Option<string> := None,
    sections: seq<ContentSection> := [])

  /** The defaults declared on the models. */
  lemma Defaults(text: string, bbox: BoundingBox, confidence: real, level: int)
    ensures TypeName(TextBox(text, bbox, confidence).textType) == "regular"
    ensures ExtractedText() == ExtractedText([], [], "", "ja", 0.0)
    ensures ContentElement("paragraph", text).attributes == map[]
    ensures ContentSection(level) == ContentSection(level, None, [], [])
    ensures ContentStructure() == ContentStructure(None, None, [])
  {
  }

  /** Number of sections in a forest, subsections included. */
  function SectionCount(secs: seq<ContentSection>): nat {
    if secs == [] then 0 else 1 + SectionCount(secs[0].subsections) + SectionCount(secs[1..])
  }

  lemma {:induction false} SectionCountAppend(a: seq<ContentSection>, b: seq<ContentSection>)
    ensures SectionCount(a + b) == SectionCount(a) + SectionCount(b)
  {
    if a != [] {
      assert (a + b)[0] == a[0];
      assert (a + b)[1..] == a[1..] + b;
      SectionCountAppend(a[1..], b);
    } else {
      assert a + b == b;
    }
  }

  /** Every section of the forest has a level in `lo..hi`. */
  predicate LevelsWithin(secs: seq<ContentSection>, lo: int, hi: int) {
    forall i :: 0 <= i < |secs| ==> lo <= secs[i].level <= hi && LevelsWithin(secs[i].subsections, lo, hi)
  }

  /** Every section's level is one more than its depth: the forest's own
      sections have `level`, their children `level + 1`, and so on. */
  predicate LevelsFollowDepth(secs: seq<ContentSection>, level: int) {
    forall i :: 0 <= i < |secs| ==> secs[i].level == level && LevelsFollowDepth(secs[i].subsections, level + 1)
  }
}
