# markit — PDF element parser and interactive viewer, in Dafny

markit shows a PDF page by page and lays clickable elements over it. The
`PDFElementParser` (`frontend/src/utils/pdfParser.js`) turns a page's
pdf.js text content, annotations and operator list into a flat list of
elements: text runs grouped into lines and classified by height and shape,
annotations, image placeholders and form fields. All are placed in
top-left, scaled page coordinates. Page results are then concatenated
into the document's list, and helpers filter that list by type, by page
and by bounding box, or rescale it. The viewer component
(`InteractivePDFViewer.jsx`) loads the parsable pages and keeps the
hover, selection and chat state. Selecting a text element adds a chat
message, deselecting an element drops its messages, and an empty chat
hides itself. The menu page builds the upload's storage path and title
from the file name, and the viewer page keeps the zoom scale.

The project has one module per concern:

- `Elements`: the element record and its id scheme.
- `JsStrings`: JavaScript `trim`, UTF-16 `length` and number formatting.
- `Lists`: filtering and mapping of sequences.
- `LineGrouping`: `groupTextIntoLines`.
- `Classifier`: `classifyTextElement`.
- `Builders`: the four element builders and their loops.
- `PageParser`: `parsePage` and `parseDocument`.
- `Queries`: the filters and `rescaleElements`.
- `Viewer`: page loading and selection/chat state, with a `ViewerState` class.
- `UploadNames`: file-name sanitising, the storage path and the title.
- `Zoom`: the zoom buttons, with a `ZoomControls` class.

Loops in the source are methods with loop invariants, proved equal to a
specification function. The properties are proved about those functions.

Modelling choices:

- pdf.js is represented by data. A page is a `PageSource`: its unscaled
  height plus the text items, annotations and operator codes. Each of these
  is `None` when its request rejects.
- A document is a sequence of pages, where `None` means `getPage` rejects.
- Coordinates are exact reals.

## Model

| member | source | states |
|---|---|---|
| LineGrouping.LinesOfIsLineGrouping | frontend/src/utils/pdfParser.js:100-126 | the computed lines partition the runs in order, with no empty line; a line breaks exactly where the baseline distance to the previous run exceeds the larger of 0.3 times the run's height and 2 |
| LineGrouping.LineGroupingUnique | frontend/src/utils/pdfParser.js:100-126 | any grouping with those properties is the computed one, so the grouping is determined by the break rule |
| LineGrouping.GroupTextIntoLines | frontend/src/utils/pdfParser.js:100-126 | the loop that keeps a current line and a last y returns exactly the specified grouping |
| LineGrouping.TwoLineExample | frontend/src/utils/pdfParser.js:106-119 | runs at y 100, 100.5, 150, 150.2 form two lines of two runs each |
| Classifier.ClassifyTextCascade | frontend/src/utils/pdfParser.js:128-140 | each of the six kinds is chosen exactly when its rule holds and no earlier rule does, on the trimmed string with the unscaled height: heading above 18, subheading above 14, list marker, capitals of length over 2, symbol under 3 code units, else paragraph |
| Classifier.ListMarkerMatchesRegex | frontend/src/utils/pdfParser.js:135 | the list-marker test holds exactly when the string matches digits, an optional dot and a whitespace character at its start |
| Classifier.HeightBoundaries | frontend/src/utils/pdfParser.js:133-134 | the height comparisons are strict: 18.01 is a heading and 18.0 a subheading, whatever the text |
| Classifier.SymbolRule | frontend/src/utils/pdfParser.js:137 | a short trimmed string that is not a list item or title is a symbol |
| Classifier.TitleRule | frontend/src/utils/pdfParser.js:136 | a trimmed string of capitals and spaces longer than 2 is a title |
| Classifier.ListItemRule | frontend/src/utils/pdfParser.js:135 | a trimmed string starting with a list marker is a list item below the subheading height |
| Classifier.ShortStringIsSymbol | frontend/src/utils/pdfParser.js:137 | "AB" at height 10 is a symbol |
| Classifier.NumberedLineIsListItem | frontend/src/utils/pdfParser.js:135 | "3. Introduction" at height 10 is a list item |
| Classifier.CapitalsAreTitle | frontend/src/utils/pdfParser.js:136 | "HELLO WORLD" at height 10 is a title |
| Builders.KeepsTextIffNotBlank | frontend/src/utils/pdfParser.js:77-93 | a text item is kept exactly when its string is not all whitespace |
| Builders.TextElementAt | frontend/src/utils/pdfParser.js:63-88 | a text element's subtype is the classification of its run |
| Builders.TextElementOf | frontend/src/utils/pdfParser.js:58-88 | a text element has the kind, page, scale, the id built from page, line and item, the run's string as content, line and item indices, the whitespace flag exactly for blank strings, non-negative position, size at least 1 and a font size at least 8 and at least its height |
| Builders.TextCoordinateFlip | frontend/src/utils/pdfParser.js:58-69 | x is the scaled transform x clamped at 0, and y is the viewport height minus the scaled baseline, clamped at 0 |
| Builders.TextElementBox | frontend/src/utils/pdfParser.js:58-72 | on a page viewed at scale s, a text element's x and y are the scaled, flipped origin clamped at 0, its width and height the scaled run size clamped at 1, its font size the scaled height clamped at 8, and its scale s |
| Builders.TextElementsExact | frontend/src/utils/pdfParser.js:48-98 | every text element comes from a non-blank run at its line and item position, elements come in line and then item order, and every non-blank run has its element |
| Builders.TextIdsDistinct | frontend/src/utils/pdfParser.js:64 | no two text elements of a page share an id |
| Builders.TextContentsInStreamOrder | frontend/src/utils/pdfParser.js:48-98 | the contents are the non-blank run strings in content-stream order: grouping neither loses nor reorders a run |
| Builders.ParseTextElements | frontend/src/utils/pdfParser.js:48-98 | the nested loop over lines and items returns the specified text elements, and nothing when the text request rejects |
| Builders.AnnotationElementAt | frontend/src/utils/pdfParser.js:146-172 | subtype is the annotation's or "unknown"; content is the contents, else the title, else "<subtype> annotation"; hasContent exactly when contents or title is set; x, y are the flipped scaled rectangle clamped at 0; width and height are the scaled sides clamped at 10 |
| Builders.AnnotationCoordinateFlip | frontend/src/utils/pdfParser.js:148-159 | the top edge, when not clamped at 0, is the viewport height minus the scaled upper rectangle y |
| Builders.AnnotationIdsDistinct | frontend/src/utils/pdfParser.js:154 | annotation ids on a page are distinct |
| Builders.ParseAnnotations | frontend/src/utils/pdfParser.js:142-178 | the loop returns one element per annotation, in order, and nothing when the request rejects |
| Builders.ImageElementAt | frontend/src/utils/pdfParser.js:193-208 | the k-th image is a 100-by-100 scaled placeholder at x 50 and y 50 + 100k (both scaled), numbered "Image k+1", recording its operator index |
| Builders.ImagePlaceholderVisible | frontend/src/utils/pdfParser.js:198-201 | at a positive scale a placeholder has a non-negative position and a positive size |
| Builders.ImagesMatchPaintOperators | frontend/src/utils/pdfParser.js:187-213 | the k-th image comes from the operator that is the k-th image paint (code 85), and an operator has an image exactly when it paints one |
| Builders.ImageBelowPrevious | frontend/src/utils/pdfParser.js:199 | image k+1 sits directly under image k |
| Builders.ImagesStacked | frontend/src/utils/pdfParser.js:198-201 | consecutive placeholders on a page are stacked with no gap |
| Builders.ImageIdsDistinct | frontend/src/utils/pdfParser.js:194 | image ids on a page are distinct |
| Builders.ParseImages | frontend/src/utils/pdfParser.js:180-219 | the operator loop returns the specified images, and none when the operator list rejects |
| Builders.FormElementAt | frontend/src/utils/pdfParser.js:228-254 | a field's subtype is its field type; content is the field name, else "<type> field"; x, y are the flipped scaled rectangle clamped at 0; width and height are the scaled sides clamped at 20 and 15 |
| Builders.FormCoordinateFlip | frontend/src/utils/pdfParser.js:229-240 | the field's top edge, when not clamped at 0, is the viewport height minus the scaled upper rectangle y |
| Builders.FormFieldsMatchAnnotations | frontend/src/utils/pdfParser.js:227-258 | there is a form element for the annotation at index i exactly when that annotation has a field type |
| Builders.FormIdsDistinct | frontend/src/utils/pdfParser.js:235 | form ids on a page are distinct |
| Builders.ParseFormFields | frontend/src/utils/pdfParser.js:221-264 | the loop returns the specified form fields, and none when the annotations reject |
| PageParser.LoadedPageElements | frontend/src/utils/pdfParser.js:24-43 | a page whose requests succeed yields its text, annotation, image and form elements, in that order |
| PageParser.ParsePage | frontend/src/utils/pdfParser.js:19-46 | the method returns the page's result: a rejection when `getPage` rejects; no elements when the text request rejects; only the text when the annotation request rejects; otherwise text, annotations, images (none if the operator list rejects) and form fields |
| PageParser.PageResultFails | frontend/src/utils/pdfParser.js:19-23 | a page fails exactly when its number is out of range or `getPage` rejects |
| PageParser.ParseDocument | frontend/src/utils/pdfParser.js:8-17 | the loop over pages returns the pages' elements concatenated in page order, or fails |
| PageParser.DocumentFailsIffPageMissing | frontend/src/utils/pdfParser.js:8-17 | the document fails exactly when one of its pages cannot be loaded |
| PageParser.ConcatenateFailsIff | frontend/src/utils/pdfParser.js:11-14 | concatenating page results fails exactly when some page in range fails |
| PageParser.PrefixFailureSticks | frontend/src/utils/pdfParser.js:11-14 | once a page fails, every longer prefix fails too |
| PageParser.PageElementsWellFormed | frontend/src/utils/pdfParser.js:19-46 | a page's elements carry its number and scale, come grouped by kind in the order text, annotation, image, form field, have distinct ids, and at a positive scale are visible (position at least 0, positive size) |
| Queries.FilterElementsByType | frontend/src/utils/pdfParser.js:276-278 | the result holds exactly the elements of the given type name |
| Queries.FilterElementsByPage | frontend/src/utils/pdfParser.js:280-282 | the result holds exactly the elements of the given page |
| Queries.GetElementsByBoundingBox | frontend/src/utils/pdfParser.js:284-291 | the result holds exactly the elements lying wholly inside the box |
| Queries.FilterByTypeRecoversRuns | frontend/src/utils/pdfParser.js:276-278 | filtering a loaded page by a type name gives back exactly that builder's run |
| Queries.FilterByPageRecoversPage | frontend/src/utils/pdfParser.js:280-282 | filtering a parsed document by a page number gives back exactly that page's elements |
| Queries.RescaleElements | frontend/src/utils/pdfParser.js:294-306 | rescaling keeps the length and every element's id, kind, subtype, content, page and details, and records the new scale |
| Queries.RescaleProportional | frontend/src/utils/pdfParser.js:296-302 | each position and size is multiplied by newScale / oldScale |
| Queries.RescaleFontSizes | frontend/src/utils/pdfParser.js:303 | a non-zero font size is multiplied by newScale / oldScale, and a zero or missing one becomes missing |
| Queries.RescaleRoundTrip | frontend/src/utils/pdfParser.js:294-306 | rescaling to a new scale and back restores elements that carry the old scale and no zero font size |
| Queries.BoundingBoxCommutesWithRescale | frontend/src/utils/pdfParser.js:284-306 | querying a rescaled list with the rescaled box gives the rescaled query result |
| Queries.ImagesRescaleLikeReparse | frontend/src/utils/pdfParser.js:180-219 | rescaling a page's images equals building them at the new scale |
| Queries.TextRescaleLikeReparse | frontend/src/utils/pdfParser.js:58-88 | rescaling a text element equals building it at the new scale, when no clamp applies at either scale |
| Queries.TextSameButGeometry | frontend/src/utils/pdfParser.js:63-88 | text elements of one run at two scales differ only in geometry and scale |
| Viewer.ParsePages | frontend/src/components/InteractivePDFViewer.jsx:48-69 | with no document the loop returns nothing; otherwise it returns the specified parsed pages |
| Viewer.LoadedPagesAreTheParsablePages | frontend/src/components/InteractivePDFViewer.jsx:48-69 | the loaded pages are exactly the pages that parse, each once, in increasing page order, with their elements |
| Viewer.PageEntryIsParse | frontend/src/components/InteractivePDFViewer.jsx:52-66 | a page gets an entry exactly when the parser resolves for it, and that entry carries its page number |
| Viewer.MessageFor | frontend/src/components/InteractivePDFViewer.jsx:286-293 | a chat message records the element's id, content and page, and its subtype as kind (or "text") |
| Viewer.ClickToggles | frontend/src/components/InteractivePDFViewer.jsx:238-275 | after a click the element is selected exactly when it was not before |
| Viewer.ClickKeepsOthers | frontend/src/components/InteractivePDFViewer.jsx:238-275 | a click leaves the selection of every other element as it was, in order |
| Viewer.ClickKeepsIdsDistinct | frontend/src/components/InteractivePDFViewer.jsx:238-275 | a click keeps the selected ids distinct |
| Viewer.SelectThenDeselectRestoresSelection | frontend/src/components/InteractivePDFViewer.jsx:238-275 | selecting and then deselecting an element restores the selection |
| Viewer.SelectThenDeselectRestoresChat | frontend/src/components/InteractivePDFViewer.jsx:238-275 | selecting and then deselecting an element restores the chat when none of its messages were there |
| Viewer.DeselectDropsMessages | frontend/src/components/InteractivePDFViewer.jsx:243-251 | after deselecting an element no message about it remains |
| Viewer.ChatGrowsOnlyOnTextSelect | frontend/src/components/InteractivePDFViewer.jsx:252-262 | the chat grows exactly when a text element is newly selected, and then by that element's message |
| Viewer.VisibleAfterEffect | frontend/src/components/InteractivePDFViewer.jsx:150-154 | after the effect the chat is visible exactly when it was visible and has messages |
| Viewer.DeselectingLastMessageHidesChat | frontend/src/components/InteractivePDFViewer.jsx:150-154 | deselecting the element behind every message leaves the chat hidden once the effect runs |
| Viewer.ViewerState.LoadPdf | frontend/src/components/InteractivePDFViewer.jsx:72-103 | a loaded document and its parsed pages are stored; a failed load changes nothing |
| Viewer.ViewerState.UpdateScale | frontend/src/components/InteractivePDFViewer.jsx:106-140 | with a document and pages, the pages are re-parsed at the new scale and the selection and hover are cleared; the chat is kept; selected ids stay distinct |
| Viewer.ViewerState.Hover | frontend/src/components/InteractivePDFViewer.jsx:233-235 | the hovered element is set and nothing else changes |
| Viewer.ViewerState.Unhover | frontend/src/components/InteractivePDFViewer.jsx:416 | the hover is cleared and nothing else changes |
| Viewer.ViewerState.HandleElementClick | frontend/src/components/InteractivePDFViewer.jsx:238-275 | the selection, chat and visibility become their specified values after the click; pages and hover are unchanged; selected ids stay distinct |
| Viewer.ViewerState.HandleTextElementClick | frontend/src/components/InteractivePDFViewer.jsx:277-297 | exactly the element's message is appended and the chat is shown |
| Viewer.ViewerState.HideEmptyChat | frontend/src/components/InteractivePDFViewer.jsx:150-154 | the chat is hidden when it has no messages, so a visible chat always has messages |
| Viewer.ViewerState.ClearSelection | frontend/src/components/InteractivePDFViewer.jsx:338-342 | selection and messages are emptied and the chat hidden; pages and hover kept |
| Viewer.ViewerState.ClearChatMessages | frontend/src/components/InteractivePDFViewer.jsx:318-320 | the messages are emptied and nothing else changes |
| Viewer.ViewerState.CloseChat | frontend/src/components/InteractivePDFViewer.jsx:466-470 | the chat is hidden and nothing else changes |
| UploadNames.Sanitize | frontend/src/pages/MenuPage.jsx:71 | the sanitised name contains only letters, digits, `_`, `.` and `-` |
| UploadNames.SanitizeActsOnCodeUnits | frontend/src/pages/MenuPage.jsx:71 | sanitising replaces each UTF-16 code unit on its own, as a regular expression without the `u` flag does |
| UploadNames.SanitizeKeepsLayout | frontend/src/pages/MenuPage.jsx:71 | sanitising keeps the length in code units, and every safe unit in its place |
| UploadNames.SanitizeFixesSafe | frontend/src/pages/MenuPage.jsx:71 | a name that is already safe is unchanged |
| UploadNames.SanitizeIdempotent | frontend/src/pages/MenuPage.jsx:71 | sanitising twice is sanitising once |
| UploadNames.StoragePath | frontend/src/pages/MenuPage.jsx:74 | the path is the user id, a slash, the timestamp in decimal, an underscore and the sanitised name |
| UploadNames.StoragePathObjectSafe | frontend/src/pages/MenuPage.jsx:74 | everything after the user folder is safe characters |
| UploadNames.StoragePathDetermines | frontend/src/pages/MenuPage.jsx:74 | for user ids without a slash, equal paths mean the same user, the same timestamp and the same sanitised name |
| UploadNames.PdfTitle | frontend/src/pages/MenuPage.jsx:87 | a name ending in ".pdf" in any case loses exactly those four characters; any other name is kept |
| UploadNames.TitleOfPdfName | frontend/src/pages/MenuPage.jsx:87 | a stem followed by a ".pdf" extension in any case gives back the stem |
| UploadNames.TitleExamples | frontend/src/pages/MenuPage.jsx:87 | "notes.PDF" gives "notes", "a.pdf.pdf" gives "a.pdf", "scan.pdfx" is kept |
| Zoom.ZoomedOut | frontend/src/pages/ViewerPage.jsx:98 | zooming out gives the step down or 0.4, whichever is larger |
| Zoom.ZoomedIn | frontend/src/pages/ViewerPage.jsx:100 | zooming in gives the step up or 2.5, whichever is smaller |
| Zoom.StepsAreMonotone | frontend/src/pages/ViewerPage.jsx:98-100 | within the range, zooming out never increases the scale and zooming in never decreases it |
| Zoom.DisabledIffNoEffect | frontend/src/pages/ViewerPage.jsx:98-100 | a zoom button is disabled exactly when pressing it would change nothing |
| Zoom.ScaleAlwaysInRange | frontend/src/pages/ViewerPage.jsx:12 | from the initial 1.0, any sequence of presses keeps the scale within [0.4, 2.5] |
| Zoom.ResetForgets | frontend/src/pages/ViewerPage.jsx:101 | after a reset the scale no longer depends on the earlier presses |
| Zoom.ZoomControls.ZoomOut | frontend/src/pages/ViewerPage.jsx:98 | the scale becomes the zoomed-out value, stays in range and does not grow |
| Zoom.ZoomControls.ZoomIn | frontend/src/pages/ViewerPage.jsx:100 | the scale becomes the zoomed-in value, stays in range and does not shrink |
| Zoom.ZoomControls.Reset | frontend/src/pages/ViewerPage.jsx:101 | the scale returns to 1.0 |

## Left out

- Rendering, canvas drawing, render cancellation and the `loading` and `error` flags of the viewer are not modelled. They only affect display.
- The ordering of React effects is not modelled. Each effect is a method or a function applied after its state change (`HideEmptyChat`, `VisibleAfterEffect`), and a batched re-render is one call.
- `console.log`, `console.warn` and `console.error` are side effects with no effect on results, so they are left out.
- Chat message ids (InteractivePDFViewer.jsx:287) and timestamps (InteractivePDFViewer.jsx:291) use the clock and are not modelled: clocks are outside the model.
- `createElement` (pdfParser.js:267-274) is not modelled. It is never called by the parser.
- Numbers are exact reals, not IEEE doubles. Rounding, `NaN` and `Infinity` do not arise.
- Queries.RescaleElements: requires `oldScale != 0`. In JavaScript a zero old scale gives `Infinity` or `NaN` coordinates. rescaleElements has no caller in the source; the zero-old-scale case is left out.
- JavaScript `null` and `undefined` are modelled as `Option`, and only for the fields the source tests. A field that is present but of the wrong type is not modelled.
- Exceptions thrown inside the builders are not modelled. Examples are an annotation without `rect` or a text item without `transform`, which throw inside the shared try at pdfParser.js:24-43. Each request is modelled as either resolving to well-formed data or rejecting.
- `parseFormFields` calls `getAnnotations` a second time (pdfParser.js:225) under its own try (pdfParser.js:224-261). The model gives both calls the same result. So the case where only the second call rejects is not expressible: the source would still return text and annotation elements with no form fields.
- `parseImages` catches a failing operator list itself (pdfParser.js:214-216). The model expresses that failure as `operators == None`.
- The viewport height is modelled as the unscaled page height times the scale. Page rotation and viewport offsets are not modelled.
- The percentage display `Math.round(scale * 100)` (ViewerPage.jsx:99) is not modelled. It is display only.
- Clipboard access, `alert`, `confirm`, `window.open`, auto-scrolling of the chat and the message input are not modelled. They are browser I/O.
- Authentication, the storage upload and the database insert on the menu page are not modelled. They are network I/O; the model covers only the names computed for them.
- LineGrouping.GroupTextIntoLines: items are taken in the given order. pdf.js's own ordering of the text content is outside the model.

Where the code and its written design differ, the model follows the code:

- Text and annotation parsing share one `try` (pdfParser.js:24-43). If the annotation request fails, the page keeps its text but loses its images and form fields as well.
- Image placeholders are not clamped, unlike text, annotations and fields. Their size is `100 * scale`, so it is positive only at a positive scale (`ImagePlaceholderVisible`).
- The second half of the keep test at pdfParser.js:91 is redundant. A non-blank string always has non-zero trimmed length (`KeepsTextIffNotBlank`).
- A scale change clears the selection and the hover but keeps the chat messages (InteractivePDFViewer.jsx:126-127).
