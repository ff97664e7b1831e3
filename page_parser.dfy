/** `parsePage` and `parseDocument`: a page's elements are its text elements,
    then its annotations, images and form fields, and the document's are the
    pages' in page order. */
module PageParser {
  import opened Wrappers
  import opened Lists
  import opened Elements
  import opened LineGrouping
  import opened Builders

  /** What pdf.js yields for one page: its unscaled height and the three
      lists the parser asks for, each None when the request rejects. The
      annotations serve both `parseAnnotations` and `parseFormFields`. */
  datatype PageSource = PageSource(
    height: real,
    textContent: Option<seq<TextItem>>,
    annotations: Option<seq<AnnotationData>>,
    operators: Option<seq<int>>)

  /** A loaded document: page `n` (from 1) is `pages[n - 1]`, None when
      `getPage` rejects. */
  datatype Document = Document(pages: seq<Option<PageSource>>) {

    function NumPages(): nat {
      |pages|
    }
  }

  /** `viewport.height` for an unrotated page at `scale`. */
  function ViewportHeight(page: PageSource, scale: real): real {
    page.height * scale
  }

  /** `pdf.getPage(pageNumber)`: rejects outside 1..numPages. */
  function GetPage(pdf: Document, pageNumber: nat): Option<PageSource> {
    if 1 <= pageNumber <= pdf.NumPages() then pdf.pages[pageNumber - 1] else None
  }

  /** The elements `parsePage` collects. The text and annotation requests
      share one `try`: when the text request rejects the page has no
      elements, and when the annotation request rejects it keeps its text
      only. Images and form fields catch their own failures. */
  function PageElements(page: PageSource, pageNumber: nat, scale: real): seq<Element> {
    var viewportHeight := ViewportHeight(page, scale);
    if page.textContent.None? then []
    else
      var text := TextElementsOf(page.textContent.value, pageNumber, viewportHeight, scale);
      if page.annotations.None? then text
      else
        var annotations := page.annotations.value;
        var images := if page.operators.None? then [] else ImageElementsOf(page.operators.value, pageNumber, scale);
        text + AnnotationElementsOf(annotations, pageNumber, viewportHeight, scale)
        + images + FormElementsOf(annotations, pageNumber, viewportHeight, scale)
  }

  /** A page whose three requests succeeded has all four runs, in kind order. */
  lemma LoadedPageElements(page: PageSource, pageNumber: nat, scale: real)
    requires page.textContent.Some? && page.annotations.Some? && page.operators.Some?
    ensures var vh := ViewportHeight(page, scale);
            PageElements(page, pageNumber, scale)
            == TextElementsOf(page.textContent.value, pageNumber, vh, scale)
               + AnnotationElementsOf(page.annotations.value, pageNumber, vh, scale)
               + ImageElementsOf(page.operators.value, pageNumber, scale)
               + FormElementsOf(page.annotations.value, pageNumber, vh, scale)
  {
  }

  /** What `parsePage` resolves to, None when it rejects. */
  function PageResult(pdf: Document, pageNumber: nat, scale: real): Option<seq<Element>> {
    match GetPage(pdf, pageNumber)
    case None => None
    case Some(page) => Some(PageElements(page, pageNumber, scale))
  }

  method ParsePage(pdf: Document, pageNumber: nat, scale: real) returns (r: Option<seq<Element>>)
    ensures r == PageResult(pdf, pageNumber, scale)
  {
    var page := GetPage(pdf, pageNumber);
    if page.None? {
      return None;
    }
    var source := page.value;
    var viewportHeight := ViewportHeight(source, scale);
    var elements: seq<Element> := [];
    var text := ParseTextElements(source.textContent, viewportHeight, pageNumber, scale);
    if text.Some? {
      elements := text.value;
      var annotations := ParseAnnotations(source.annotations, viewportHeight, pageNumber, scale);
      if annotations.Some? {
        elements := elements + annotations.value;
        var images := ParseImages(source.operators, pageNumber, scale);
        elements := elements + images;
        var forms := ParseFormFields(source.annotations, viewportHeight, pageNumber, scale);
        elements := elements + forms;
      }
    }
    return Some(elements);
  }

  /** `parsePage`'s result for every page number. */
  function PageResults(pdf: Document, scale: real): nat -> Option<seq<Element>> {
    (n: nat) => PageResult(pdf, n, scale)
  }

  /** The results of pages 1..n joined in page order, None as soon as one of
      them is None. */
  function Concatenate(result: nat -> Option<seq<Element>>, n: nat): Option<seq<Element>>
    decreases n
  {
    if n == 0 then Some([])
    else
      match Concatenate(result, n - 1)
      case None => None
      case Some(before) =>
        match result(n)
        case None => None
        case Some(page) => Some(before + page)
  }

  /** The elements of pages 1..n, None as soon as one of them rejects. */
  function DocumentPrefix(pdf: Document, n: nat, scale: real): Option<seq<Element>> {
    Concatenate(PageResults(pdf, scale), n)
  }

  /** What `parseDocument` resolves to. */
  function DocumentElements(pdf: Document, scale: real): Option<seq<Element>> {
    DocumentPrefix(pdf, pdf.NumPages(), scale)
  }

  lemma {:induction false} PrefixFailureSticks(pdf: Document, n: nat, m: nat, scale: real)
    requires n <= m && DocumentPrefix(pdf, n, scale).None?
    ensures DocumentPrefix(pdf, m, scale).None?
  {
    FailureSticks(PageResults(pdf, scale), n, m);
  }

  /** Once a page is None, so is every longer join. */
  lemma {:induction false} FailureSticks(result: nat -> Option<seq<Element>>, n: nat, m: nat)
    requires n <= m && Concatenate(result, n).None?
    ensures Concatenate(result, m).None?
    decreases m - n
  {
    if n < m {
      FailureSticks(result, n, m - 1);
    }
  }

  /** A join is None exactly when one of its pages is. */
  lemma {:induction false} ConcatenateFailsIff(result: nat -> Option<seq<Element>>, n: nat)
    ensures Concatenate(result, n).None? <==> exists p :: 1 <= p <= n && result(p).None?
    decreases n
  {
    if n > 0 {
      ConcatenateFailsIff(result, n - 1);
      if result(n).None? {
        assert exists p :: 1 <= p <= n && result(p).None?;
      }
    }
  }

  /** `parsePage` rejects exactly for a page number outside the document or a
      page `getPage` cannot fetch. */
  lemma PageResultFails(pdf: Document, n: nat, scale: real)
    ensures PageResult(pdf, n, scale).None? <==> !(1 <= n <= pdf.NumPages()) || pdf.pages[n - 1].None?
  {
  }

  method ParseDocument(pdf: Document, scale: real) returns (r: Option<seq<Element>>)
    ensures r == DocumentElements(pdf, scale)
  {
    var all: seq<Element> := [];
    for pageNum := 1 to pdf.NumPages() + 1
      invariant DocumentPrefix(pdf, pageNum - 1, scale) == Some(all)
    {
      var pageElements := ParsePage(pdf, pageNum, scale);
      if pageElements.None? {
        PrefixFailureSticks(pdf, pageNum, pdf.NumPages(), scale);
        return None;
      }
      all := all + pageElements.value;
      assert PageResults(pdf, scale)(pageNum) == pageElements;
    }
    return Some(all);
  }

  /** The document parses exactly when every page can be fetched. */
  lemma DocumentFailsIffPageMissing(pdf: Document, n: nat, scale: real)
    requires n <= pdf.NumPages()
    ensures DocumentPrefix(pdf, n, scale).None? <==> exists k :: 0 <= k < n && pdf.pages[k].None?
  {
    var result := PageResults(pdf, scale);
    ConcatenateFailsIff(result, n);
    if exists p :: 1 <= p <= n && result(p).None? {
      var p :| 1 <= p <= n && result(p).None?;
      PageResultFails(pdf, p, scale);
      assert pdf.pages[p - 1].None?;
    }
    if exists k :: 0 <= k < n && pdf.pages[k].None? {
      var k :| 0 <= k < n && pdf.pages[k].None?;
      PageResultFails(pdf, k + 1, scale);
      assert result(k + 1).None?;
    }
  }

  // ---------------------------------------------------------- page facts

  /** Every element of `r` is of `kind`, on page `pageNumber` at `scale`,
      with an id starting with the kind's first letter. */
  predicate Stamped(r: seq<Element>, kind: ElementType, pageNumber: nat, scale: real) {
    forall i :: 0 <= i < |r| ==>
      r[i].kind == kind && r[i].pageNumber == pageNumber && r[i].scale == scale
      && |r[i].id| > 0 && r[i].id[0] == kind.IdPrefix()[0]
  }

  /** Every element of `r` has a non-negative position and a positive size. */
  predicate Visible(r: seq<Element>) {
    forall i :: 0 <= i < |r| ==> r[i].x >= 0.0 && r[i].y >= 0.0 && r[i].width > 0.0 && r[i].height > 0.0
  }

  predicate IdsDistinct(r: seq<Element>) {
    forall a, b :: 0 <= a < b < |r| ==> r[a].id != r[b].id
  }

  lemma TextElementsStamped(items: seq<TextItem>, pageNumber: nat, viewportHeight: real, scale: real)
    ensures var r := TextElementsOf(items, pageNumber, viewportHeight, scale);
            Stamped(r, Text, pageNumber, scale) && Visible(r) && IdsDistinct(r)
  {
    TextBuilderBuildsText(pageNumber, viewportHeight, scale);
    LinesStamped(LinesOf(items), KeepsItem, TextBuilder(pageNumber, viewportHeight, scale), pageNumber, scale);
  }

  /** The elements a text builder makes from lines are stamped text elements
      with distinct ids and a visible box. */
  lemma LinesStamped(lines: seq<seq<TextItem>>, keep: TextItem -> bool, mk: ItemBuilder, pageNumber: nat, scale: real)
    requires BuildsText(mk, pageNumber, scale)
    ensures var r := LinesElements(lines, keep, mk);
            Stamped(r, Text, pageNumber, scale) && Visible(r) && IdsDistinct(r)
  {
    var r := LinesElements(lines, keep, mk);
    LinesElementsSound(lines, keep, mk);
    LinesIdsDistinct(lines, keep, mk, pageNumber, scale);
    forall i | 0 <= i < |r|
      ensures r[i].kind == Text && r[i].pageNumber == pageNumber && r[i].scale == scale
      ensures |r[i].id| > 0 && r[i].id[0] == Text.IdPrefix()[0]
      ensures r[i].x >= 0.0 && r[i].y >= 0.0 && r[i].width > 0.0 && r[i].height > 0.0
    {
      TextLabelOf(lines, r[i], keep, mk, pageNumber, scale);
    }
  }

  lemma AnnotationElementsStamped(annotations: seq<AnnotationData>, pageNumber: nat, viewportHeight: real, scale: real)
    ensures var r := AnnotationElementsOf(annotations, pageNumber, viewportHeight, scale);
            Stamped(r, Annotation, pageNumber, scale) && Visible(r) && IdsDistinct(r)
  {
    AnnotationIdsDistinct(annotations, pageNumber, viewportHeight, scale);
  }

  lemma ImageElementsStamped(operators: seq<int>, pageNumber: nat, scale: real)
    ensures var r := ImageElementsOf(operators, pageNumber, scale);
            Stamped(r, Image, pageNumber, scale) && (scale > 0.0 ==> Visible(r)) && IdsDistinct(r)
  {
    ImageIdsDistinct(operators, pageNumber, scale);
    var r := ImageElementsOf(operators, pageNumber, scale);
    var at := Positions(operators, IsImagePaint);
    if scale > 0.0 {
      forall k | 0 <= k < |r| ensures r[k].x >= 0.0 && r[k].y >= 0.0 && r[k].width > 0.0 && r[k].height > 0.0 {
        ImagePlaceholderVisible(pageNumber, k, at[k], scale);
      }
    }
  }

  lemma FormElementsStamped(annotations: seq<AnnotationData>, pageNumber: nat, viewportHeight: real, scale: real)
    ensures var r := FormElementsOf(annotations, pageNumber, viewportHeight, scale);
            Stamped(r, FormField, pageNumber, scale) && Visible(r) && IdsDistinct(r)
  {
    FormIdsDistinct(annotations, pageNumber, viewportHeight, scale);
  }

  /** `r` lists its elements grouped by kind, in rank order. */
  predicate KindsSorted(r: seq<Element>) {
    forall a, b :: 0 <= a < b < |r| ==> r[a].kind.Rank() <= r[b].kind.Rank()
  }

  /** Every element of `r` is on page `pageNumber` at `scale`, of a kind
      ranked below `bound`, with an id starting with its kind's first letter. */
  predicate Before(r: seq<Element>, bound: nat, pageNumber: nat, scale: real) {
    forall i :: 0 <= i < |r| ==>
      r[i].kind.Rank() < bound && r[i].pageNumber == pageNumber && r[i].scale == scale
      && |r[i].id| > 0 && r[i].id[0] == r[i].kind.IdPrefix()[0]
  }

  /** Appending a stamped run of a later kind keeps the kinds sorted and the ids distinct. */
  lemma Join(r0: seq<Element>, r1: seq<Element>, kind: ElementType, pageNumber: nat, scale: real)
    requires KindsSorted(r0) && IdsDistinct(r0) && Before(r0, kind.Rank(), pageNumber, scale)
    requires Stamped(r1, kind, pageNumber, scale) && IdsDistinct(r1)
    ensures KindsSorted(r0 + r1) && IdsDistinct(r0 + r1) && Before(r0 + r1, kind.Rank() + 1, pageNumber, scale)
    ensures Visible(r0) && Visible(r1) ==> Visible(r0 + r1)
  {
    var r := r0 + r1;
    forall i | 0 <= i < |r|
      ensures r[i].kind.Rank() < kind.Rank() + 1 && r[i].pageNumber == pageNumber && r[i].scale == scale
      ensures |r[i].id| > 0 && r[i].id[0] == r[i].kind.IdPrefix()[0]
      ensures i < |r0| ==> r[i].kind.Rank() < kind.Rank()
      ensures |r0| <= i ==> r[i].kind == kind
    {
      if i < |r0| {
        assert r[i] == r0[i];
      } else {
        assert r[i] == r1[i - |r0|];
      }
    }
    forall a, b | 0 <= a < b < |r| ensures r[a].id != r[b].id && r[a].kind.Rank() <= r[b].kind.Rank() {
      if b < |r0| {
        assert r[a] == r0[a] && r[b] == r0[b];
      } else if |r0| <= a {
        assert r[a] == r1[a - |r0|] && r[b] == r1[b - |r0|];
      } else {
        assert r[a].kind != r[b].kind;
        assert r[a].id[0] != r[b].id[0];
      }
    }
  }

  /** The four runs of a page, one after another. */
  lemma RunsWellFormed(text: seq<Element>, ann: seq<Element>, images: seq<Element>, forms: seq<Element>,
                       pageNumber: nat, scale: real)
    requires Stamped(text, Text, pageNumber, scale) && IdsDistinct(text) && Visible(text)
    requires Stamped(ann, Annotation, pageNumber, scale) && IdsDistinct(ann) && Visible(ann)
    requires Stamped(images, Image, pageNumber, scale) && IdsDistinct(images)
    requires Stamped(forms, FormField, pageNumber, scale) && IdsDistinct(forms) && Visible(forms)
    ensures var r := text + ann + images + forms;
            Before(r, 4, pageNumber, scale) && KindsSorted(r) && IdsDistinct(r)
            && (Visible(images) ==> Visible(r))
  {
    Join([], text, Text, pageNumber, scale);
    assert [] + text == text;
    Join(text, ann, Annotation, pageNumber, scale);
    Join(text + ann, images, Image, pageNumber, scale);
    Join(text + ann + images, forms, FormField, pageNumber, scale);
  }

  /** The elements of a page all carry its number and the scale; they come
      grouped by kind (text, annotations, images, form fields); no two share
      an id; and at a positive scale each has a non-negative position and a
      positive size. */
  lemma PageElementsWellFormed(page: PageSource, pageNumber: nat, scale: real)
    ensures var r := PageElements(page, pageNumber, scale);
            (forall i :: 0 <= i < |r| ==> r[i].pageNumber == pageNumber && r[i].scale == scale)
            && KindsSorted(r) && IdsDistinct(r) && (scale > 0.0 ==> Visible(r))
  {
    var r := PageElements(page, pageNumber, scale);
    var vh := ViewportHeight(page, scale);
    if page.textContent.Some? {
      var text := TextElementsOf(page.textContent.value, pageNumber, vh, scale);
      TextElementsStamped(page.textContent.value, pageNumber, vh, scale);
      var none: seq<Element> := [];
      if page.annotations.None? {
        RunsWellFormed(text, none, none, none, pageNumber, scale);
        assert r == text + none + none + none;
      } else {
        var anns := page.annotations.value;
        var ann := AnnotationElementsOf(anns, pageNumber, vh, scale);
        var images := if page.operators.None? then none else ImageElementsOf(page.operators.value, pageNumber, scale);
        var forms := FormElementsOf(anns, pageNumber, vh, scale);
        AnnotationElementsStamped(anns, pageNumber, vh, scale);
        if page.operators.Some? {
          ImageElementsStamped(page.operators.value, pageNumber, scale);
        }
        FormElementsStamped(anns, pageNumber, vh, scale);
        RunsWellFormed(text, ann, images, forms, pageNumber, scale);
        assert r == text + ann + images + forms;
      }
    }
  }
}
