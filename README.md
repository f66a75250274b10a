# Slide generator document analysis, modelled in Dafny

This project models the document-analysis core of the LangGraph slide
generator. That core turns the OCR output of lecture pages into a
structured document tree, and it has seven parts:

- **OCR post-processing** (`Ocr`): builds the Tesseract configuration string. It turns the engine's column-wise output into text boxes, then derives the raw text, the primary language and the mean confidence. The call runs under `retry`.
- **Layout analysis** (`LayoutAnalysis`): assigns each text box a role in three stages. Boxes are sorted into reading order by their top edge, confirmed headings are marked, paragraphs are grouped by vertical gaps, and list items are marked by their markers.
- **Content understanding** (`ContentUnderstanding`): joins the pages' text and builds a `ContentStructure`. The rule-based line scanner does this, or the LLM chain does under `retry`. The line tests, the heading level and the breadth-first parent search are modelled too.
- **Structure detection** (`StructureDetection`): covers level normalisation, pre-order flattening, the rebuild by level with its backward parent scan, the LLM refinement's fence extraction and fallback, title promotion, and the depth-based level reset.
- **Resilience helpers** (`ErrorHandling`): the `error_handling` wrap-and-rethrow, the `retry` loop with exponential back-off, and the `CircuitBreaker` state machine.
- **Error metrics** (`Metrics`): the `ErrorMetrics` collector. It keeps per-type error counts, a 100-entry window of outcomes per operation, the last 100 errors, the error rate and the most common errors.
- **Document model** (`Models`): the pydantic models, together with the exception hierarchy (`Exceptions`) the core raises and catches.

Supporting modules:

- `Builtins` gives the Python string and list built-ins the core uses (`strip`, `split`, `join`, `find`, `rfind`, `index`, `isupper`).
- `Sorting` is Python's stable `sorted` with a key.
- `SectionPaths` addresses sections inside a forest of section values, which models appending to a section object held by reference.

The model takes the source's own form. Pure computations are functions. Loops are methods with invariants, each proved equal to a specification function. `CircuitBreaker` and `ErrorMetrics` are classes whose methods update their fields in place. Calls the core makes outward are parameters:

- the OCR engine's result on each attempt;
- the LLM chain's outcome or reply, and the JSON parser;
- the clock.

## Model

| member | source | states |
|---|---|---|
| Models.Defaults | src/models/__init__.py:17-74 | The defaults the models declare: a text box is `regular`, an extracted text is empty Japanese text of confidence 0, and sections and structures start without title, elements or children. |
| Models.SectionCountAppend | src/models/__init__.py:63-68 | The number of sections of two forests side by side is the sum of their counts. |
| Exceptions.EverythingIsAnException | src/utils/error_handling.py:16-19 | Every exception class of the model is a subclass of `Exception`, so `retry`'s default `exceptions=(Exception,)` catches all of them. |
| Sorting.SortBySpec | src/image_processing/layout_analysis.py:68 | `sorted` with a key returns the input reordered (same multiset) so that keys never decrease. |
| Sorting.SortByStable | src/image_processing/layout_analysis.py:68 | `sorted` is stable: elements with equal keys keep their input order. |
| Sorting.SortBySorted | src/image_processing/layout_analysis.py:109 | Sorting a list that is already in key order returns it unchanged. |
| Builtins.StripIdempotent | src/llm_analysis/content_understanding.py:187 | Stripping a stripped line changes nothing. |
| Builtins.StripEmptyIffBlank | src/llm_analysis/content_understanding.py:174 | A line strips to the empty string exactly when it holds only whitespace. |
| Builtins.JoinSplit | src/llm_analysis/content_understanding.py:163 | Joining the pieces of `split(sep)` with `sep` gives back the text. |
| Builtins.SplitJoin | src/llm_analysis/content_understanding.py:197 | Splitting a `sep`-join of parts that do not contain `sep` gives back the parts. |
| Builtins.IndexOfFirst | src/llm_analysis/content_understanding.py:300 | `list.index` returns the position of the first occurrence. |
| Builtins.ParseNatToString | src/image_processing/ocr.py:93 | The decimal text of a mode number reads back as that number. |
| Builtins.SplitWhitespaceWords | src/image_processing/layout_analysis.py:238 | `str.split()` yields only non-empty words without whitespace. |
| SectionPaths.AppendChildAtSpec | src/llm_analysis/content_understanding.py:223-227 | Appending a subsection to the section at an address puts it at the end of that section's children, reachable at the next child index. The tree gains exactly the child's sections. |
| SectionPaths.AppendElementAtSpec | src/llm_analysis/content_understanding.py:193-199 | Appending an element to the section at an address extends that section's elements. Its level, title and number of children stay, and so does the section count. |
| SectionPaths.AppendElementAtKeeps | src/llm_analysis/content_understanding.py:193-199 | Appending an element keeps every address valid. Each section keeps its level, title and number of children, and every section other than the addressed one keeps its elements. |
| SectionPaths.AppendElementAtFrame | src/llm_analysis/content_understanding.py:193-199 | Appending an element at an address leaves exactly the same addresses. It extends the elements there by that one element and changes nothing else in the tree. |
| SectionPaths.AppendChildAtDeeper | src/llm_analysis/content_understanding.py:223-227 | Attaching a child whose level exceeds its parent's keeps every subsection deeper than its parent. |
| LayoutAnalysis.SameGeometryHeights | src/image_processing/layout_analysis.py:74-75 | Boxes that differ only in their roles have the same total height, so the average height does not change. |
| LayoutAnalysis.IsTitleOrHeading | src/image_processing/layout_analysis.py:202-241 | The scan for normal text below the box returns exactly the title-or-heading predicate: near the top or large, and followed by ordinary text or short. |
| LayoutAnalysis.IdentifyHeadings | src/image_processing/layout_analysis.py:50-92 | The heading loop returns exactly the heading stage's specification. |
| LayoutAnalysis.HeadingsOfEmpty | src/image_processing/layout_analysis.py:70-71 | A page without boxes comes back unchanged. |
| LayoutAnalysis.LayoutOfEmpty | src/image_processing/layout_analysis.py:108-112 | A page without boxes comes back unchanged from the paragraph stage, from the list stage and from the whole layout pass. |
| LayoutAnalysis.HeadingsResult | src/image_processing/layout_analysis.py:65-92 | The boxes come back in stable y order with their geometry kept. A box's role changes only to `heading`, and only when it is taller than the threshold times the average and passes `is_title_or_heading`. Nothing but the box list changes. |
| LayoutAnalysis.MarkHeadingsFacts | src/image_processing/layout_analysis.py:82-87 | Heading marking keeps every box's geometry and text and changes a role only to heading, and only for a box that passes the heading test. |
| LayoutAnalysis.ParagraphGroups | src/image_processing/layout_analysis.py:117-143 | Every paragraph group is non-empty. There are groups exactly when there are boxes, and the last group ends with the last box. |
| LayoutAnalysis.ParagraphGroupsConcat | src/image_processing/layout_analysis.py:124-143 | The groups, one after another, are exactly the sorted boxes. |
| LayoutAnalysis.ConcatJoined | src/image_processing/layout_analysis.py:131-135 | A box within the gap limit of the one before it is appended to the current paragraph, so the paragraphs still concatenate to the boxes. |
| LayoutAnalysis.ConcatStarted | src/image_processing/layout_analysis.py:136-139 | A box farther away starts a new paragraph, and the paragraphs still concatenate to the boxes. |
| LayoutAnalysis.ParagraphGroupsCloseInside | src/image_processing/layout_analysis.py:131-135 | Inside a group, each gap between neighbours is at most the average height times `paragraph_threshold`. |
| LayoutAnalysis.ParagraphGroupsFarApart | src/image_processing/layout_analysis.py:136-139 | Between neighbouring groups the gap exceeds that limit. |
| LayoutAnalysis.GroupParagraphs | src/image_processing/layout_analysis.py:117-143 | The grouping loop returns exactly the paragraph groups. |
| LayoutAnalysis.TagParagraphs | src/image_processing/layout_analysis.py:146-157 | The tagging loop returns the groups' boxes in order, each tagged by its position in its group. |
| LayoutAnalysis.TaggedGroupsAreMarked | src/image_processing/layout_analysis.py:145-157 | Tagging group by group gives the box-by-box roles: `paragraph_start` where a paragraph opens, `paragraph_content` elsewhere, and `heading` kept. |
| LayoutAnalysis.IdentifyParagraphs | src/image_processing/layout_analysis.py:94-161 | The paragraph stage returns exactly its specification. |
| LayoutAnalysis.ParagraphsResult | src/image_processing/layout_analysis.py:108-161 | The y-sorted boxes and every heading are kept. Any other box becomes `paragraph_start` exactly when it is first or its gap to the box above exceeds the limit, and `paragraph_content` otherwise. |
| LayoutAnalysis.MarkParagraphsFacts | src/image_processing/layout_analysis.py:145-155 | Paragraph tagging keeps every box's geometry, leaves headings alone, and tags each other box as a paragraph start when it opens a paragraph and as paragraph content otherwise. |
| LayoutAnalysis.IdentifyListItems | src/image_processing/layout_analysis.py:163-200 | The marker loop returns exactly the list stage's specification. |
| LayoutAnalysis.TagListItem | src/image_processing/layout_analysis.py:190-194 | The marker loop tags a box as a list item exactly when some marker matches its text, and otherwise returns it unchanged. |
| LayoutAnalysis.ListItemsResult | src/image_processing/layout_analysis.py:177-200 | Order and geometry are kept. A box becomes `list_item` exactly when its text matches one of the four marker patterns; otherwise it is unchanged. |
| LayoutAnalysis.AnalyzeLayout | src/image_processing/layout_analysis.py:16-48 | The three stages run in order and the result is a success holding the composed specification. |
| LayoutAnalysis.LayoutRoles | src/image_processing/layout_analysis.py:16-200 | After the whole layout pass the page holds its boxes in stable y order. Each box's role is decided in turn by a list marker, then the heading tests, then the paragraph gap. |
| LayoutAnalysis.HeadingStageKeepsOrder | src/image_processing/layout_analysis.py:109-122 | Heading tagging keeps the y order and the average height the paragraph stage recomputes. |
| ContentUnderstanding.CombineSnoc | src/llm_analysis/content_understanding.py:54-70 | One page gives its own raw text; each further page adds a blank line and its text at the end. |
| ContentUnderstanding.ListLineChars | src/llm_analysis/content_understanding.py:241 | A line is a list line exactly when it starts with a bullet and a space, or with a digit, `.` or `)` and a space. |
| ContentUnderstanding.LikelyHeadingCases | src/llm_analysis/content_understanding.py:280-304 | The quick tests decide alone. Otherwise the test raises ValueError exactly when the line is not among the lines, and holds exactly when the line's first occurrence is followed by a blank line. |
| ContentUnderstanding.HeadingLevelOfHashes | src/llm_analysis/content_understanding.py:317-324 | `k` leading hashes give level `min(k, 6)`. |
| ContentUnderstanding.MicroSignLevel | src/llm_analysis/content_understanding.py:327-330 | A short heading holding the micro sign is not upper case, so it gets level 2, not 1. |
| ContentUnderstanding.EstimateHeadingLevel | src/llm_analysis/content_understanding.py:306-332 | The counting loop returns the heading level, which always lies between 1 and 6. |
| ContentUnderstanding.FindParentSection | src/llm_analysis/content_understanding.py:334-368 | The layer-by-layer loop returns the first section of level `level - 1` in breadth-first order, or None. |
| ContentUnderstanding.ScanLayer | src/llm_analysis/content_understanding.py:356-358 | The scan of one layer returns its first section at the target level, or None when the layer has none. |
| ContentUnderstanding.CollectNext | src/llm_analysis/content_understanding.py:361-363 | The collecting loop returns the next layer: the subsections of the layer's sections, in order. |
| ContentUnderstanding.NextLayerCount | src/llm_analysis/content_understanding.py:355-365 | The sections of a layer and all below them are the layer itself plus those of the next layer, so the search loop ends. |
| ContentUnderstanding.NextLayerConcat | src/llm_analysis/content_understanding.py:361-363 | The next layer is the concatenation of the subsection lists of the layer's sections. |
| ContentUnderstanding.HasLevelLayer | src/llm_analysis/content_understanding.py:355-365 | A layer holds the target level below it exactly when one of its sections has it or the next layer holds it. |
| ContentUnderstanding.BfsSound | src/llm_analysis/content_understanding.py:355-368 | A section found by the search lies at a valid address and has the target level. When nothing is found, no section below the layer has it. |
| ContentUnderstanding.FindParentFound | src/llm_analysis/content_understanding.py:334-368 | A parent found has level `level - 1`. None comes back only for level 1 or less, or when no section of the tree has level `level - 1`. |
| ContentUnderstanding.StepValid | src/llm_analysis/content_understanding.py:186-267 | Each scanned line keeps the scanner's state consistent: the current section's address is valid and has the current level. |
| ContentUnderstanding.StepFacts | src/llm_analysis/content_understanding.py:186-267 | One line adds a section exactly when it is a heading line, and keeps subsections deeper than their parents with levels 1 to 6. It can fail only with the ValueError of the heading lookup. |
| ContentUnderstanding.ScanFacts | src/llm_analysis/content_understanding.py:186-276 | The scan adds one section per heading line and keeps the tree well shaped. Its only failure is ValueError. |
| ContentUnderstanding.CloseListEffect | src/llm_analysis/content_understanding.py:189-200 | Closing a list appends one list element, the pending lines joined by newlines, to the open section. Without an open section it is dropped. The list state is cleared, and the open section and its level stay. |
| ContentUnderstanding.StepBlankLine | src/llm_analysis/content_understanding.py:188-201 | A blank line closes a pending list into the open section, or drops it without one, and changes nothing else. |
| ContentUnderstanding.StepListLine | src/llm_analysis/content_understanding.py:240-243 | A list line that is not a heading leaves the tree and the open section alone and is appended to the pending list lines. |
| ContentUnderstanding.StepParagraphLine | src/llm_analysis/content_understanding.py:245-266 | Any other line appends the pending list, if any, and then one paragraph element with the stripped line to the open section. Every other section is unchanged. Without an open section the tree stays as it was. The list state is cleared. |
| ContentUnderstanding.PlaceHeadingWhere | src/llm_analysis/content_understanding.py:207-237 | A heading's new empty section becomes the open one at the level given. It is added last at the root for level 1 and last under the open section when it is deeper. Otherwise it goes last under the parent the search finds, or at the root when the search finds none. Every existing section keeps its address, level, title and elements, and the list state is untouched. |
| ContentUnderstanding.StepHeadingLine | src/llm_analysis/content_understanding.py:204-237 | A heading line gets a section whose level, from 1 to 6, is estimated from the line. It is placed as above. |
| ContentUnderstanding.FinalSectionsEffect | src/llm_analysis/content_understanding.py:268-276 | At the end a pending list is appended to the open section, or dropped when no section is open. Nothing else changes. |
| ContentUnderstanding.FirstNonBlankSpec | src/llm_analysis/content_understanding.py:173-176 | The title is the first line that is not blank, stripped; there is none exactly when every line is blank. |
| ContentUnderstanding.RulesResult | src/llm_analysis/content_understanding.py:151-278 | The title is the first non-blank line and there is no subtitle. The sections form a well-shaped tree with one section per heading line after the first line. The only exception is the ValueError of the heading lookup. |
| ContentUnderstanding.RulesSections | src/llm_analysis/content_understanding.py:185-278 | The analysis fails exactly when the scan fails. Its sections are the scanned tree with the pending list closed into the open section. |
| ContentUnderstanding.ListRoundTrip | src/llm_analysis/content_understanding.py:194-199 | A list element splits at newlines back into the list lines it was made from. |
| ContentUnderstanding.IndentedLineRaises | src/llm_analysis/content_understanding.py:186-205 | An indented line that passes no quick test is looked up stripped among unstripped lines, so `"T\n x"` raises ValueError. |
| ContentUnderstanding.ScanLine | src/llm_analysis/content_understanding.py:187-267 | The loop body for one line returns exactly one scan step. |
| ContentUnderstanding.FindTitle | src/llm_analysis/content_understanding.py:173-176 | The title loop returns the first non-blank line, stripped. |
| ContentUnderstanding.ScanLines | src/llm_analysis/content_understanding.py:186-267 | The loop over the lines after the first returns the scan, stopping at the first exception. |
| ContentUnderstanding.AnalyzeWithRules | src/llm_analysis/content_understanding.py:151-278 | The title, the scan and the closing of a pending list give exactly the rule analysis. |
| ContentUnderstanding.ClassifyLlmFailure | src/llm_analysis/content_understanding.py:143-149 | A chain failure becomes LLMConnectionError exactly when the lower-cased message mentions a connection or a timeout, and LLMResponseError otherwise. The original message ends the new one. |
| ContentUnderstanding.AnalyzeWithLlm | src/llm_analysis/content_understanding.py:72-149 | Under `retry(max_attempts=2)` a failed first run is retried after a 1-second delay, and the second run's outcome is final. |
| ContentUnderstanding.AnalyzeContent | src/llm_analysis/content_understanding.py:19-52 | Returns the chosen analysis of the joined text, with any exception wrapped. |
| ContentUnderstanding.AnalyzeContentResult | src/llm_analysis/content_understanding.py:19-52 | Every failure is a ContentAnalysisError carrying the prefix and the inner message. On the rule path a success is the rule analysis itself. On the LLM path a failure means both runs failed. |
| StructureDetection.FlattenAppend | src/llm_analysis/structure_detection.py:169-172 | Flattening two forests side by side is the concatenation of their pre-order lists. |
| StructureDetection.FlattenCount | src/llm_analysis/structure_detection.py:157-175 | The pre-order list has one entry per section of the tree. |
| StructureDetection.FlattenContains | src/llm_analysis/structure_detection.py:157-175 | Every section of the tree is in the pre-order list. |
| StructureDetection.FlattenFlat | src/llm_analysis/structure_detection.py:157-175 | A forest without subsections is its own pre-order list. |
| StructureDetection.FlattenSections | src/llm_analysis/structure_detection.py:157-175 | The recursive `_flatten` appends the sections in pre-order: each section, then its subtree, then its later siblings. |
| StructureDetection.ShiftLevelsPath | src/llm_analysis/structure_detection.py:102-114 | Shifting keeps every address. At each address the level moves by the same amount, and the title, elements and number of children stay. |
| StructureDetection.ShiftLevelsCompose | src/llm_analysis/structure_detection.py:102-114 | Shifts compose by adding their amounts, and a shift by 0 changes nothing, so a shift by `-d` undoes one by `d`. |
| StructureDetection.AdjustSectionLevel | src/llm_analysis/structure_detection.py:102-114 | The recursive adjustment shifts the section and its whole subtree. |
| StructureDetection.MinLevel | src/llm_analysis/structure_detection.py:94 | The minimum is the level of some top-level section and no top-level level is below it. |
| StructureDetection.NormalizeResult | src/llm_analysis/structure_detection.py:82-100 | After normalisation the smallest top-level level is 1. Every level moved by `1 - min`, with the tree's shape kept, and normalising again changes nothing. |
| StructureDetection.NormalizeSectionLevels | src/llm_analysis/structure_detection.py:82-100 | The loop over the top-level sections returns the normalised forest. |
| StructureDetection.LastAtLevel | src/llm_analysis/structure_detection.py:199-206 | The backward scan returns the nearest earlier index with the target level, or None when no earlier index has it. |
| StructureDetection.FindParentForResult | src/llm_analysis/structure_detection.py:177-206 | None at level 1 or below. Otherwise it raises ValueError exactly when the section is not in the tree, and else returns the nearest earlier pre-order entry one level up from the section's first occurrence. |
| StructureDetection.FindParentForSection | src/llm_analysis/structure_detection.py:177-206 | The backward loop returns exactly that specification. |
| StructureDetection.ScanBack | src/llm_analysis/structure_detection.py:201-206 | The backward loop returns the nearest position before the start holding the target level, or None when no earlier entry has it. |
| StructureDetection.SortedRootsFacts | src/llm_analysis/structure_detection.py:131-144 | The new roots are the level-1 entries of the pre-order list, each once per occurrence, ordered by level and first occurrence. |
| StructureDetection.ReorganizeResult | src/llm_analysis/structure_detection.py:116-155 | The rebuild fails with ValueError exactly when some section is above level 1. On success the roots are the tree's level-1 sections, without subsections. They are ordered by the pre-order position of each section's first equal occurrence, so equal sections end up next to each other. |
| StructureDetection.LookupInRebuiltRaises | src/llm_analysis/structure_detection.py:147-149 | A section above level 1 is never in the rebuilt forest of bare level-1 sections, so its parent lookup raises. |
| StructureDetection.ReorganizeSections | src/llm_analysis/structure_detection.py:116-155 | The clearing loop, the first pass and the second pass together return the rebuild's specification. |
| StructureDetection.ValidateLevelsDepth | src/llm_analysis/structure_detection.py:307-321 | Afterwards every section's level is the starting level plus its depth. |
| StructureDetection.ValidateLevelsFixed | src/llm_analysis/structure_detection.py:307-321 | The reset changes nothing exactly when the levels already follow the depth, so it is idempotent. |
| StructureDetection.ValidateLevelsPath | src/llm_analysis/structure_detection.py:307-321 | Only levels change: the same addresses, and at each the same title, elements and number of children. |
| StructureDetection.ValidateSectionLevels | src/llm_analysis/structure_detection.py:307-321 | The loop with its recursive call returns the depth-based reset. |
| StructureDetection.ValidateStructure | src/llm_analysis/structure_detection.py:286-305 | Returns exactly the validation's specification. |
| StructureDetection.ValidateStructureResult | src/llm_analysis/structure_detection.py:286-305 | The subtitle stays and levels follow the depth from 1. Without a title the first section's title is promoted and that section removed; with a title, title and sections stay. |
| StructureDetection.FenceFound | src/llm_analysis/structure_detection.py:270-274 | A fenced block is found exactly when the reply contains "```json". |
| StructureDetection.FenceRoundTrip | src/llm_analysis/structure_detection.py:270-274 | A reply that is exactly a fenced block gives back its body, stripped. |
| StructureDetection.RefineFallback | src/llm_analysis/structure_detection.py:208-284 | The input comes back unchanged when the chain fails, when the reply has no fenced block, or when the block does not parse. Otherwise the parsed structure is returned. |
| StructureDetection.RefineSectionHierarchy | src/llm_analysis/structure_detection.py:49-80 | Returns normalise, rebuild, then refine. The caller's own top-level sections come out normalised and without subsections, because the copy is shallow. |
| StructureDetection.DetectStructure | src/llm_analysis/structure_detection.py:18-47 | Returns the refinement followed by validation, with failures wrapped, and the caller's view of its sections. |
| StructureDetection.DetectResult | src/llm_analysis/structure_detection.py:18-47 | Fails, with ContentAnalysisError, exactly when the normalised tree has a section above level 1. On success levels follow the depth; without the LLM step the subtitle is kept and no section has subsections. |
| StructureDetection.NestedInputFails | src/llm_analysis/structure_detection.py:82-155 | Any top-level section with any deeper direct subsection makes `detect_structure` fail. |
| Ocr.BuildTesseractConfig | src/image_processing/ocr.py:75-113 | The loop joins the configuration parts with single spaces. |
| Ocr.ConfigShape | src/image_processing/ocr.py:85-113 | The configuration is the engine mode, the page segmentation mode, then each flag that is on, separated by single spaces. |
| Ocr.DefaultConfig | src/image_processing/ocr.py:92-110 | With no options the configuration is `--oem 1 --psm 3` followed by the interword-spaces flag. |
| Ocr.ConfigModes | src/image_processing/ocr.py:92-103 | The configuration starts with the engine mode and then the page segmentation mode. |
| Ocr.ConfigVertical | src/image_processing/ocr.py:106-107 | The configuration asks for vertical text exactly when `enable_japanese_vertical` is set. |
| Ocr.ConfigInterword | src/image_processing/ocr.py:109-110 | The configuration asks for interword spaces exactly when `preserve_interword_spaces` is on. |
| Ocr.InterwordLast | src/image_processing/ocr.py:109-113 | With `preserve_interword_spaces` on, the interword flag is the last part of the configuration, after the modes and any vertical flag. |
| Ocr.TruncNegative | src/image_processing/ocr.py:130 | `int()` of a confidence is negative exactly from -1 down, so confidences between -1 and 0 pass the filter. |
| Ocr.ExtractTextBoxes | src/image_processing/ocr.py:115-160 | The loop returns one box per kept item, in input order. |
| Ocr.BoxesSpecIndices | src/image_processing/ocr.py:128-158 | The kept positions rise strictly and are exactly the kept items; the k-th box is built from the k-th of them. |
| Ocr.ExtractTextBoxesResult | src/image_processing/ocr.py:115-160 | Each box carries the text, geometry and confidence of one kept item, in input order, typed by its OCR level (2 paragraph, 3 line, 4 word, else regular). Every kept item has its box, and no box has blank text or a confidence of -1 or below. |
| Ocr.PrimaryLanguageSpec | src/image_processing/ocr.py:44-71 | The primary language is the language option up to its first `+`; the default `jpn+eng` gives `jpn`. |
| Ocr.NonBlankOfExtracted | src/image_processing/ocr.py:61 | The boxes of `extract_text_boxes` all have text, so the raw text joins every box's text. |
| Ocr.AverageConfidencePositive | src/image_processing/ocr.py:64-65 | The mean confidence is never negative, and is positive when some box has a positive confidence. |
| Ocr.AverageConfidenceAtMost100 | src/image_processing/ocr.py:64-65 | With confidences of at most 100 the mean is at most 100. |
| Ocr.ExtractOnce | src/image_processing/ocr.py:39-73 | One run of the body returns exactly its specification. |
| Ocr.ExtractOnceResult | src/image_processing/ocr.py:39-73 | A failure is an OCRError carrying the image id and the original message. A success joins all box texts with spaces, names the primary language and has a non-negative confidence. |
| Ocr.ExtractText | src/image_processing/ocr.py:17-73 | The engine is called once or twice, twice exactly when the first attempt fails, and the last attempt decides the result. The configuration handed to the engine is the built one. |
| ErrorHandling.WrapErrors | src/utils/error_handling.py:58-79 | A value passes through unchanged, and any exception comes out as the given error type. |
| ErrorHandling.WrapErrorsKeepsMessage | src/utils/error_handling.py:75-79 | The original message can be read back: it is what follows the prefix and `": "`. |
| ErrorHandling.DelayIsGeometric | src/utils/error_handling.py:36-53 | The k-th sleep is `initial_delay * backoff ** k`. |
| ErrorHandling.Retry | src/utils/error_handling.py:16-56 | Calls stop at the first success, at the first exception not caught, or at `max_attempts`. Every call but the last failed with a caught exception. The last outcome decides the result, and the delays between calls grow geometrically. |
| ErrorHandling.ExecuteKeepsInvariant | src/utils/error_handling.py:94-159 | Construction and `reset` give a consistent breaker, and every `execute` keeps it consistent: half-open never outlasts a call and an open breaker has seen a failure. |
| ErrorHandling.ExecuteOpen | src/utils/error_handling.py:124-154 | An open breaker within its recovery timeout refuses the call and changes nothing. After it, the breaker tries once: a success closes it with no failures, and a failure re-opens it at `now`. |
| ErrorHandling.ExecuteClosed | src/utils/error_handling.py:135-154 | A closed breaker always calls. A success changes nothing. A failure adds one to the count and records its time. It opens the breaker once the count reaches the threshold and leaves it closed below it. Nothing else changes. |
| ErrorHandling.ThresholdFailuresOpen | src/utils/error_handling.py:145-152 | From a fresh breaker, `failure_threshold` failing calls in a row open it, whatever their times. |
| ErrorHandling.ClosedFailures | src/utils/error_handling.py:145-152 | Each failing call from a closed breaker adds one failure. The breaker never becomes half-open, and it is open at the end exactly when the count reached the threshold. |
| ErrorHandling.CircuitBreaker.constructor | src/utils/error_handling.py:94-106 | A new breaker is closed with no failures, at time 0, and consistent. |
| ErrorHandling.CircuitBreaker.Execute | src/utils/error_handling.py:108-154 | The fields are updated as one `execute` specifies. The function is called only when allowed, the result passes through or the exception propagates, and consistency is kept. |
| ErrorHandling.CircuitBreaker.Reset | src/utils/error_handling.py:156-159 | Zero failures and closed, with the threshold, timeout and last failure time unchanged. |
| Metrics.Recent | src/utils/logging.py:101 | The recent items are never more than 100. |
| Metrics.PushRecent | src/utils/logging.py:127-130 | Pushing onto the last 100 items of a history gives the last 100 of the extended history. |
| Metrics.PushAllRecent | src/utils/logging.py:127-130 | A window fed with a sequence holds the last 100 items of everything pushed into it. |
| Metrics.WindowHoldsRecent | src/utils/logging.py:101-130 | Starting empty, a window always holds the last 100 items pushed, oldest first, and never more than 100. |
| Metrics.IncrementSpec | src/utils/logging.py:112 | Recording a type adds one to its count and changes no other count. A new type is added at the end, and types stay distinct. |
| Metrics.CountsTally | src/utils/logging.py:99-112 | Starting from no counts, each type's count is the number of times it was recorded. |
| Metrics.FailureCount | src/utils/logging.py:127-145 | The failures number between none and all records, and none exactly when every record is a success. |
| Metrics.ErrorRateBounds | src/utils/logging.py:132-145 | The error rate lies between 0 and 1. It is 0 exactly when no recorded operation failed, and 1 exactly when there are records and all of them failed. |
| Metrics.MostCommonPrefix | src/utils/logging.py:147-161 | The result is the first `limit` pairs of the pairs sorted by descending count, drawn from the recorded pairs. |
| Metrics.MostCommonOrdered | src/utils/logging.py:157-161 | The counts returned never increase. |
| Metrics.MostCommonTop | src/utils/logging.py:157-161 | No pair left out is more common than a pair returned. |
| Metrics.MostCommonStable | src/utils/logging.py:157-161 | Pairs with equal counts come back in first-recorded order. |
| Metrics.ErrorMetrics.constructor | src/utils/logging.py:94-102 | A new collector has no counts, no windows and no recent errors. |
| Metrics.ErrorMetrics.RecordError | src/utils/logging.py:104-117 | The type's count goes up by one and the record enters the last-errors window. The rates are unchanged and the collector stays consistent. |
| Metrics.ErrorMetrics.RecordOperation | src/utils/logging.py:119-130 | The outcome (0 success, 1 failure) enters the operation's 100-entry window, and nothing else changes. |
| Metrics.ErrorMetrics.GetErrorRate | src/utils/logging.py:132-145 | Returns the operation window's failure fraction, between 0 and 1, and 0 for an operation never recorded. |
| Metrics.ErrorMetrics.GetMostCommonErrors | src/utils/logging.py:147-161 | Returns the most common errors, at most as many as the recorded types, with counts non-increasing. |

## Left out

- Image handling and I/O are not modelled: PIL conversion, the pytesseract call itself, `use_alternative_ocr` with EasyOCR, and the image preprocessing module. The OCR engine's dictionary (or its exception) on each attempt is a parameter.
- Ocr.ExtractTextBoxes: the engine's columns are taken to be of equal length (the `OcrTable` subset type). The IndexError a shorter column would cause is not modelled.
- The LLM chains are parameters: the chain's outcome in `analyze_with_llm`, and the reply and JSON parser in `refine_with_llm`. Prompt text, model name and temperature do not affect the modelled logic.
- ContentUnderstanding.AnalyzeWithLlm and ContentUnderstanding.AnalyzeContent take at least two chain outcomes, one per possible attempt, as does Ocr.ExtractText with engine results. The source needs no such bound; it only sizes the outcome parameter.
- Sleeping is not modelled. `retry` returns the delays it would sleep, and `time.time()` is the parameter `now`.
- Logging calls and the `setup_logger` and `log_event` helpers of the logging module are not modelled: they only write log records.
- Floats are exact reals, so rounding in averages and error rates is not modelled.
- `str.isupper` and `str.islower` cover ASCII, Latin-1 (including ª, µ and º as lowercase) and full-width Latin letters, not all of Unicode. `str.isdigit` covers ASCII and full-width digits. `str.isspace` is exact.
- The regex `\d` of the numbered list marker in `identify_list_items` uses the same digit test as `str.isdigit` (ASCII and full-width digits). Python's `\d` accepts every Unicode decimal digit.
- ContentUnderstanding.LikelyHeadingCases: the ValueError message of `all_lines.index(line)` is modelled as the line between single quotes followed by " is not in list". Python formats the line with `repr`, which uses double quotes for a line holding a single quote but no double quote, and escapes backslashes and non-printable characters such as tabs or U+3000. Those lines get a different message in the model. Modelling `repr` would need Unicode's printable-character table.
- ContentUnderstanding.StepFacts: its error clause states the same single-quoted message as LikelyHeadingCases, so the same lines get a different message than in Python. That message also reaches callers inside the ContentAnalysisError text.
- Python object identity is modelled by addresses (paths) in the section tree and by positions in the pre-order list. StructureDetection.FindParentForSection returns the parent's pre-order position, not the object.
- The in-place mutation of the caller's sections through the shallow copy in `refine_section_hierarchy` is returned as a separate caller view. Deeper sections shared with the caller are not tracked.
- StructureDetection.ReorganizeSections: the branches of the second pass that attach a found parent or promote to level 1 are unreachable, because the lookup always raises first (proved). They are not modelled.
- The ValueError message of `list.index` for a section is a fixed text, because the section's printed form is not modelled.
- `text_type` is limited to the values the pipeline writes (OCR levels and layout roles), not any string.
- Option dictionaries are records with typed fields and the source's defaults. Values of other types that Python would accept are not modelled.
- Ocr.ExtractText uses `retry`'s default delays (1 s, then doubling), as the decorator does; the delays are not returned.
- Ocr.AverageConfidenceAtMost100 takes it as given that Tesseract reports confidences of at most 100, since the source does not check it.
- Metrics.ErrorMetrics.RecordError: the error context is a map from strings to strings, not to any value.
