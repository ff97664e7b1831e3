/** The static queries of `PDFElementParser` over an element list: by kind,
    by page, by enclosing box, and rescaling to a new zoom factor. */
module Queries {
  import opened Wrappers
  import opened Lists
  import opened Elements
  import opened Classifier
  import opened Builders
  import opened PageParser

  function HasKindName(kindName: string): Element -> bool {
    (e: Element) => e.kind.Name() == kindName
  }

  /** `filterElementsByType`: the elements whose `type` string is `kindName`, in order. */
  function FilterElementsByType(elements: seq<Element>, kindName: string): (r: seq<Element>)
    ensures forall i :: 0 <= i < |r| ==> r[i] in elements && r[i].kind.Name() == kindName
    ensures forall i :: 0 <= i < |elements| && elements[i].kind.Name() == kindName ==> elements[i] in r
  {
    Filter(elements, HasKindName(kindName))
  }

  function OnPage(pageNumber: int): Element -> bool {
    (e: Element) => e.pageNumber == pageNumber
  }

  /** `filterElementsByPage`: the elements of page `pageNumber`, in order. */
  function FilterElementsByPage(elements: seq<Element>, pageNumber: int): (r: seq<Element>)
    ensures forall i :: 0 <= i < |r| ==> r[i] in elements && r[i].pageNumber == pageNumber
    ensures forall i :: 0 <= i < |elements| && elements[i].pageNumber == pageNumber ==> elements[i] in r
  {
    Filter(elements, OnPage(pageNumber))
  }

  /** The element lies within the box with corner (x, y), edges included. */
  predicate Inside(e: Element, x: real, y: real, width: real, height: real) {
    e.x >= x && e.y >= y && e.x + e.width <= x + width && e.y + e.height <= y + height
  }

  function InBox(x: real, y: real, width: real, height: real): Element -> bool {
    (e: Element) => Inside(e, x, y, width, height)
  }

  /** `getElementsByBoundingBox`: the elements lying wholly inside the box, in order. */
  function GetElementsByBoundingBox(elements: seq<Element>, x: real, y: real, width: real, height: real): (r: seq<Element>)
    ensures forall i :: 0 <= i < |r| ==> r[i] in elements && Inside(r[i], x, y, width, height)
    ensures forall i :: 0 <= i < |elements| && Inside(elements[i], x, y, width, height) ==> elements[i] in r
  {
    Filter(elements, InBox(x, y, width, height))
  }

  /** One element scaled by `factor`; a font size of 0 is falsy and is dropped. */
  function RescaleElement(e: Element, factor: real, newScale: real): Element {
    e.(x := e.x * factor, y := e.y * factor, width := e.width * factor, height := e.height * factor,
       fontSize := ScaledFontSize(e.fontSize, factor), scale := newScale)
  }

  /** `element.fontSize ? element.fontSize * factor : undefined`: a missing or
      zero font size is dropped. */
  function ScaledFontSize(f: Option<real>, factor: real): Option<real> {
    match f
    case Some(v) => if v != 0.0 then Some(v * factor) else None
    case None => None
  }

  /** A present, non-zero font size is multiplied by the factor. */
  lemma ScaledFontSizeIs(v: real, factor: real, r: real)
    requires v != 0.0 && v * factor == r
    ensures ScaledFontSize(Some(v), factor) == Some(r)
  {
    var o := ScaledFontSize(Some(v), factor);
    assert o.Some? && o.value == r;
    assert o == Some(o.value);
  }

  /** `rescaleElements`: geometry multiplied by newScale / oldScale, the new
      scale recorded, everything else kept. */
  function RescaleElements(elements: seq<Element>, newScale: real, oldScale: real): (r: seq<Element>)
    requires oldScale != 0.0
    ensures |r| == |elements|
    ensures forall i :: 0 <= i < |r| ==>
              r[i].id == elements[i].id && r[i].kind == elements[i].kind && r[i].subtype == elements[i].subtype
              && r[i].content == elements[i].content && r[i].pageNumber == elements[i].pageNumber
              && r[i].details == elements[i].details && r[i].scale == newScale
  {
    Map(elements, Rescaler(newScale / oldScale, newScale))
  }

  function Rescaler(factor: real, newScale: real): Element -> Element {
    (e: Element) => RescaleElement(e, factor, newScale)
  }

  /** After rescaling, every coordinate and size relates to the new scale as
      it related to the old one. */
  lemma RescaleProportional(elements: seq<Element>, newScale: real, oldScale: real)
    requires oldScale != 0.0
    ensures var r := RescaleElements(elements, newScale, oldScale);
            forall i :: 0 <= i < |r| ==>
              r[i].x * oldScale == elements[i].x * newScale && r[i].y * oldScale == elements[i].y * newScale
              && r[i].width * oldScale == elements[i].width * newScale
              && r[i].height * oldScale == elements[i].height * newScale
  {
    var r := RescaleElements(elements, newScale, oldScale);
    var k := newScale / oldScale;
    assert k * oldScale == newScale;
    forall i | 0 <= i < |r|
      ensures r[i].x * oldScale == elements[i].x * newScale && r[i].y * oldScale == elements[i].y * newScale
      ensures r[i].width * oldScale == elements[i].width * newScale
      ensures r[i].height * oldScale == elements[i].height * newScale
    {
      var e := elements[i];
      assert r[i] == RescaleElement(e, k, newScale);
      assert e.x * k * oldScale == e.x * (k * oldScale);
      assert e.y * k * oldScale == e.y * (k * oldScale);
      assert e.width * k * oldScale == e.width * (k * oldScale);
      assert e.height * k * oldScale == e.height * (k * oldScale);
    }
  }

  /** `fontSize ? fontSize * k : undefined`, as a relation between the font
      size before and after: a truthy size is multiplied by k, a missing or
      zero one becomes missing. */
  predicate FontSizeRule(before: Option<real>, after: Option<real>, k: real) {
    (before.Some? && before.value != 0.0 ==> after == Some(before.value * k))
    && (before.None? || before.value == 0.0 ==> after.None?)
  }

  lemma RescaleFontSizes(elements: seq<Element>, newScale: real, oldScale: real)
    requires oldScale != 0.0
    ensures var r := RescaleElements(elements, newScale, oldScale);
            forall i :: 0 <= i < |r| ==> FontSizeRule(elements[i].fontSize, r[i].fontSize, newScale / oldScale)
  {
    var r, k := RescaleElements(elements, newScale, oldScale), newScale / oldScale;
    forall i | 0 <= i < |r| ensures FontSizeRule(elements[i].fontSize, r[i].fontSize, k) {
      FontSizeRescaled(elements[i], r[i], k, newScale);
    }
  }

  lemma FontSizeRescaled(e: Element, rescaled: Element, k: real, newScale: real)
    requires rescaled == RescaleElement(e, k, newScale)
    ensures FontSizeRule(e.fontSize, rescaled.fontSize, k)
  {
    if e.fontSize.Some? && e.fontSize.value != 0.0 {
      assert e.fontSize == Some(e.fontSize.value);
      ScaledFontSizeIs(e.fontSize.value, k, e.fontSize.value * k);
    }
  }

  // ------------------------------------------------------------- by kind

  lemma FilterStamped(r: seq<Element>, kind: ElementType, pageNumber: nat, scale: real, kindName: string)
    requires Stamped(r, kind, pageNumber, scale)
    ensures Filter(r, HasKindName(kindName)) == if kind.Name() == kindName then r else []
  {
    if kind.Name() == kindName {
      FilterKeepsAll(r, HasKindName(kindName));
    } else {
      FilterDropsAll(r, HasKindName(kindName));
    }
  }

  /** Filtering four stamped runs by a kind name keeps the run of that kind. */
  lemma FilterRuns(text: seq<Element>, ann: seq<Element>, images: seq<Element>, forms: seq<Element>,
                   pageNumber: nat, scale: real, name: string)
    requires Stamped(text, Text, pageNumber, scale) && Stamped(ann, Annotation, pageNumber, scale)
    requires Stamped(images, Image, pageNumber, scale) && Stamped(forms, FormField, pageNumber, scale)
    ensures FilterElementsByType(text + ann + images + forms, name)
            == (if Text.Name() == name then text else []) + (if Annotation.Name() == name then ann else [])
               + (if Image.Name() == name then images else []) + (if FormField.Name() == name then forms else [])
  {
    FilterAppend(text + ann + images, forms, HasKindName(name));
    FilterAppend(text + ann, images, HasKindName(name));
    FilterAppend(text, ann, HasKindName(name));
    FilterStamped(text, Text, pageNumber, scale, name);
    FilterStamped(ann, Annotation, pageNumber, scale, name);
    FilterStamped(images, Image, pageNumber, scale, name);
    FilterStamped(forms, FormField, pageNumber, scale, name);
  }

  /** The four `type` strings are distinct, so at most one run matches a name. */
  lemma SelectRun<T>(name: string, text: seq<T>, ann: seq<T>, images: seq<T>, forms: seq<T>)
    ensures (if Text.Name() == name then text else []) + (if Annotation.Name() == name then ann else [])
            + (if Image.Name() == name then images else []) + (if FormField.Name() == name then forms else [])
            == if name == "text" then text else if name == "annotation" then ann
               else if name == "image" then images else if name == "form-field" then forms else []
  {
    assert "annotation"[0] != "form-field"[0];
  }

  /** On a page whose text, annotation and operator requests succeeded,
      asking for a kind by its `type` string gives back exactly that kind's
      run, and any other string gives nothing. */
  lemma FilterByTypeRecoversRuns(page: PageSource, pageNumber: nat, scale: real, name: string)
    requires page.textContent.Some? && page.annotations.Some? && page.operators.Some?
    ensures var r := PageElements(page, pageNumber, scale);
            var vh := ViewportHeight(page, scale);
            FilterElementsByType(r, name)
            == if name == "text" then TextElementsOf(page.textContent.value, pageNumber, vh, scale)
               else if name == "annotation" then AnnotationElementsOf(page.annotations.value, pageNumber, vh, scale)
               else if name == "image" then ImageElementsOf(page.operators.value, pageNumber, scale)
               else if name == "form-field" then FormElementsOf(page.annotations.value, pageNumber, vh, scale)
               else []
  {
    var vh := ViewportHeight(page, scale);
    var text := TextElementsOf(page.textContent.value, pageNumber, vh, scale);
    var ann := AnnotationElementsOf(page.annotations.value, pageNumber, vh, scale);
    var images := ImageElementsOf(page.operators.value, pageNumber, scale);
    var forms := FormElementsOf(page.annotations.value, pageNumber, vh, scale);
    LoadedPageElements(page, pageNumber, scale);
    TextElementsStamped(page.textContent.value, pageNumber, vh, scale);
    AnnotationElementsStamped(page.annotations.value, pageNumber, vh, scale);
    ImageElementsStamped(page.operators.value, pageNumber, scale);
    FormElementsStamped(page.annotations.value, pageNumber, vh, scale);
    FilterRuns(text, ann, images, forms, pageNumber, scale, name);
    SelectRun(name, text, ann, images, forms);
  }

  // ------------------------------------------------------------- by page

  /** Page `n` is among the first `m` parsed pages exactly when n <= m, and
      filtering the parsed prefix by `n` gives that page's elements. */
  lemma FilterPrefixByPage(pdf: Document, m: nat, scale: real, n: nat)
    requires DocumentPrefix(pdf, m, scale).Some? && 1 <= n
    ensures n <= m ==> PageResult(pdf, n, scale).Some?
    ensures FilterElementsByPage(DocumentPrefix(pdf, m, scale).value, n)
            == if n <= m then PageResult(pdf, n, scale).value else []
  {
    var result := PageResults(pdf, scale);
    forall p: nat, i | result(p).Some? && 0 <= i < |result(p).value|
      ensures result(p).value[i].pageNumber == p
    {
      PageElementsWellFormed(GetPage(pdf, p).value, p, scale);
    }
    FilterConcatenate(result, m, n);
  }

  /** Every element of a page's result is stamped with that page. */
  ghost predicate OnItsPage(result: nat -> Option<seq<Element>>) {
    forall p: nat, i :: result(p).Some? && 0 <= i < |result(p).value| ==> result(p).value[i].pageNumber == p
  }

  /** Filtering a join of pages by page number gives back that page. */
  lemma {:induction false} FilterConcatenate(result: nat -> Option<seq<Element>>, m: nat, n: nat)
    requires OnItsPage(result)
    requires Concatenate(result, m).Some? && 1 <= n
    ensures n <= m ==> result(n).Some?
    ensures FilterElementsByPage(Concatenate(result, m).value, n) == if n <= m then result(n).value else []
    decreases m
  {
    if m > 0 {
      var before := Concatenate(result, m - 1).value;
      var page := result(m).value;
      assert Concatenate(result, m).value == before + page;
      FilterConcatenate(result, m - 1, n);
      PageFilterStep(before, page, m, n);
    }
  }

  /** Appending one page's elements adds them to the filter of that page only. */
  lemma PageFilterStep(before: seq<Element>, page: seq<Element>, m: nat, n: nat)
    requires forall i :: 0 <= i < |page| ==> page[i].pageNumber == m
    ensures FilterElementsByPage(before + page, n) == FilterElementsByPage(before, n) + if n == m then page else []
  {
    FilterAppend(before, page, OnPage(n));
    if n == m {
      FilterKeepsAll(page, OnPage(n));
    } else {
      FilterDropsAll(page, OnPage(n));
    }
  }

  lemma FilterByPageRecoversPage(pdf: Document, scale: real, n: nat)
    requires DocumentElements(pdf, scale).Some? && 1 <= n <= pdf.NumPages()
    ensures PageResult(pdf, n, scale).Some?
    ensures FilterElementsByPage(DocumentElements(pdf, scale).value, n) == PageResult(pdf, n, scale).value
  {
    FilterPrefixByPage(pdf, pdf.NumPages(), scale, n);
  }

  // ------------------------------------------------------------ rescaling

  /** Two elements with equal fields are equal. */
  lemma ElementsEqual(a: Element, b: Element)
    requires a.id == b.id && a.kind == b.kind && a.subtype == b.subtype && a.content == b.content
    requires a.x == b.x && a.y == b.y && a.width == b.width && a.height == b.height
    requires a.fontSize == b.fontSize && a.pageNumber == b.pageNumber && a.scale == b.scale
    requires a.details == b.details
    ensures a == b
  {
  }

  lemma RescaleElementRoundTrip(e: Element, k: real, back: real, oldScale: real, newScale: real)
    requires k != 0.0 && k * back == 1.0 && e.scale == oldScale && e.fontSize != Some(0.0)
    ensures RescaleElement(RescaleElement(e, k, newScale), back, oldScale) == e
  {
    var there := RescaleElement(e, k, newScale);
    var r := RescaleElement(there, back, oldScale);
    BackAgain(e.x, k, back);
    BackAgain(e.y, k, back);
    BackAgain(e.width, k, back);
    BackAgain(e.height, k, back);
    if e.fontSize.Some? {
      var v := e.fontSize.value;
      BackAgain(v, k, back);
      ScaledFontSizeIs(v, k, v * k);
      ScaledFontSizeIs(v * k, back, v);
    }
    ElementsEqual(r, e);
  }

  /** Multiplying by k and then by its inverse gives the value back. */
  lemma BackAgain(a: real, k: real, back: real)
    requires k * back == 1.0
    ensures a * k * back == a
  {
    assert a * k * back == a * (k * back);
  }


  /** Rescaling there and back restores the elements, provided they were at
      the old scale and no font size is 0. */
  lemma RescaleRoundTrip(elements: seq<Element>, oldScale: real, newScale: real)
    requires oldScale != 0.0 && newScale != 0.0
    requires forall i :: 0 <= i < |elements| ==> elements[i].scale == oldScale && elements[i].fontSize != Some(0.0)
    ensures RescaleElements(RescaleElements(elements, newScale, oldScale), oldScale, newScale) == elements
  {
    var there := RescaleElements(elements, newScale, oldScale);
    var back := RescaleElements(there, oldScale, newScale);
    var k := newScale / oldScale;
    assert k * (oldScale / newScale) == 1.0;
    forall i | 0 <= i < |elements| ensures back[i] == elements[i] {
      RescaleElementRoundTrip(elements[i], k, oldScale / newScale, oldScale, newScale);
    }
  }

  lemma InsideScaled(e: Element, k: real, newScale: real, x: real, y: real, width: real, height: real)
    requires k > 0.0
    ensures Inside(RescaleElement(e, k, newScale), x * k, y * k, width * k, height * k)
            <==> Inside(e, x, y, width, height)
  {
    var r := RescaleElement(e, k, newScale);
    SpanScaled(e.x, e.width, x, width, k, r.x, r.width);
    SpanScaled(e.y, e.height, y, height, k, r.y, r.height);
  }


  /** An interval [a, a + l] lies within [b, b + m] exactly when it does after
      scaling everything by a positive factor. */
  lemma SpanScaled(a: real, l: real, b: real, m: real, k: real, ak: real, lk: real)
    requires k > 0.0 && ak == a * k && lk == l * k
    ensures (ak >= b * k && ak + lk <= b * k + m * k) <==> (a >= b && a + l <= b + m)
  {
    assert (a + l) * k == a * k + l * k;
    assert (b + m) * k == b * k + m * k;
    ScaleMonotone(a, b, k);
    ScaleMonotone(b + m, a + l, k);
  }


  lemma ScaleMonotone(a: real, b: real, k: real)
    requires k > 0.0
    ensures a >= b <==> a * k >= b * k
  {
    if a >= b {
      assert (a - b) * k >= 0.0;
    } else {
      assert (b - a) * k > 0.0;
    }
  }

  /** `f` keeps an element inside the box (x', y', width', height') exactly
      when the element was inside (x, y, width, height). */
  ghost predicate BoxPreserved(f: Element -> Element, x: real, y: real, width: real, height: real,
                         x': real, y': real, width': real, height': real) {
    forall e: Element :: InBox(x', y', width', height')(f(e)) == InBox(x, y, width, height)(e)
  }

  /** Scaling an element and the box by the same positive factor keeps it in or out. */
  lemma InBoxRescaled(k: real, newScale: real, x: real, y: real, width: real, height: real,
                      x': real, y': real, width': real, height': real)
    requires k > 0.0 && x' == x * k && y' == y * k && width' == width * k && height' == height * k
    ensures BoxPreserved(Rescaler(k, newScale), x, y, width, height, x', y', width', height')
  {
    forall e: Element
      ensures InBox(x', y', width', height')(Rescaler(k, newScale)(e)) == InBox(x, y, width, height)(e)
    {
      InsideScaled(e, k, newScale, x, y, width, height);
    }
  }

  lemma BoundingBoxOfMap(elements: seq<Element>, f: Element -> Element, x: real, y: real, width: real, height: real,
                         x': real, y': real, width': real, height': real)
    requires BoxPreserved(f, x, y, width, height, x', y', width', height')
    ensures GetElementsByBoundingBox(Map(elements, f), x', y', width', height')
            == Map(GetElementsByBoundingBox(elements, x, y, width, height), f)
  {
    FilterMap(elements, f, InBox(x, y, width, height), InBox(x', y', width', height'));
  }

  /** A box query commutes with zooming: the box scaled by the zoom ratio
      selects the scaled images of the elements the original box selects. */
  lemma BoundingBoxCommutesWithRescale(elements: seq<Element>, newScale: real, oldScale: real,
                                       x: real, y: real, width: real, height: real,
                                       x': real, y': real, width': real, height': real)
    requires oldScale != 0.0 && newScale / oldScale > 0.0
    requires x' == x * (newScale / oldScale) && y' == y * (newScale / oldScale)
    requires width' == width * (newScale / oldScale) && height' == height * (newScale / oldScale)
    ensures GetElementsByBoundingBox(RescaleElements(elements, newScale, oldScale), x', y', width', height')
            == RescaleElements(GetElementsByBoundingBox(elements, x, y, width, height), newScale, oldScale)
  {
    InBoxRescaled(newScale / oldScale, newScale, x, y, width, height, x', y', width', height');
    BoundingBoxOfMap(elements, Rescaler(newScale / oldScale, newScale), x, y, width, height,
                     x', y', width', height');
  }

  /** Image placeholders depend linearly on the scale, so rescaling them is
      the same as parsing again at the new scale. */
  lemma ImagesRescaleLikeReparse(operators: seq<int>, pageNumber: nat, oldScale: real, newScale: real)
    requires oldScale != 0.0
    ensures RescaleElements(ImageElementsOf(operators, pageNumber, oldScale), newScale, oldScale)
            == ImageElementsOf(operators, pageNumber, newScale)
  {
    var at := Positions(operators, IsImagePaint);
    var before := ImageElementsOf(operators, pageNumber, oldScale);
    forall i | 0 <= i < |at|
      ensures RescaleElement(before[i], newScale / oldScale, newScale) == ImageElementAt(pageNumber, i, at[i], newScale)
    {
      ImageRescaleLikeReparse(pageNumber, i, at[i], oldScale, newScale);
    }
  }

  /** One placeholder rescaled is the placeholder built at the new scale. */
  lemma ImageRescaleLikeReparse(pageNumber: nat, imageIndex: nat, operatorIndex: nat, oldScale: real, newScale: real)
    requires oldScale != 0.0
    ensures RescaleElement(ImageElementAt(pageNumber, imageIndex, operatorIndex, oldScale), newScale / oldScale, newScale)
            == ImageElementAt(pageNumber, imageIndex, operatorIndex, newScale)
  {
    var before := ImageElementAt(pageNumber, imageIndex, operatorIndex, oldScale);
    var after := ImageElementAt(pageNumber, imageIndex, operatorIndex, newScale);
    PlaceholderScaled(before, after, imageIndex as real, oldScale, newScale);
    RescaleMatches(before, after, newScale / oldScale, newScale);
  }

  lemma PlaceholderScaled(before: Element, after: Element, n: real, s1: real, s2: real)
    requires s1 != 0.0
    requires before.x == 50.0 * s1 && before.y == 50.0 * s1 + n * 100.0 * s1
    requires before.width == 100.0 * s1 && before.height == 100.0 * s1 && before.fontSize.None?
    requires after.x == 50.0 * s2 && after.y == 50.0 * s2 + n * 100.0 * s2
    requires after.width == 100.0 * s2 && after.height == 100.0 * s2 && after.fontSize.None?
    ensures GeometryScaled(before, after, s2 / s1)
  {
    ImageGeometryScales(n, s1, s2);
  }

  lemma ImageGeometryScales(n: real, s1: real, s2: real)
    requires s1 != 0.0
    ensures 50.0 * s1 * (s2 / s1) == 50.0 * s2 && 100.0 * s1 * (s2 / s1) == 100.0 * s2
    ensures (50.0 * s1 + n * 100.0 * s1) * (s2 / s1) == 50.0 * s2 + n * 100.0 * s2
  {
    var k := s2 / s1;
    assert s1 * k == s2;
    assert (50.0 * s1 + n * 100.0 * s1) * k == (50.0 + n * 100.0) * (s1 * k);
  }


  lemma ScaledProduct(a: real, s1: real, s2: real)
    requires s1 != 0.0
    ensures a * s1 * (s2 / s1) == a * s2
  {
    calc {
      a * s1 * (s2 / s1);
      a * (s1 * (s2 / s1));
      a * s2;
    }
  }

  /** A floor that holds at both scales commutes with scaling. */
  lemma ClampScales(c: real, a: real, s1: real, s2: real)
    requires s1 > 0.0 && a * s1 >= c && a * s2 >= c
    ensures Max(c, a * s1) * (s2 / s1) == Max(c, a * s2)
  {
    ScaledProduct(a, s1, s2);
  }

  lemma ZeroClampScales(a: real, s1: real, s2: real)
    requires s1 > 0.0 && s2 > 0.0 && a >= 0.0
    ensures Max(0.0, a * s1) * (s2 / s1) == Max(0.0, a * s2)
  {
    ScaledProduct(a, s1, s2);
  }

  /** Two elements that differ only in geometry and scale. */
  predicate SameButGeometry(a: Element, b: Element) {
    a.id == b.id && a.kind == b.kind && a.subtype == b.subtype && a.content == b.content
    && a.pageNumber == b.pageNumber && a.details == b.details
  }

  /** Parsing the same item at two scales differs only in geometry. */
  lemma TextSameButGeometry(item: TextItem, pageNumber: nat, lineIndex: nat, itemIndex: nat,
                            h1: real, s1: real, h2: real, s2: real)
    ensures SameButGeometry(TextElementAt(item, pageNumber, lineIndex, itemIndex, h1, s1),
                            TextElementAt(item, pageNumber, lineIndex, itemIndex, h2, s2))
  {
  }

  /** `after` is `before` with every length multiplied by k. */
  predicate GeometryScaled(before: Element, after: Element, k: real) {
    after.x == before.x * k && after.y == before.y * k
    && after.width == before.width * k && after.height == before.height * k
    && after.fontSize == ScaledFontSize(before.fontSize, k)
  }

  lemma RescaleMatches(before: Element, after: Element, k: real, newScale: real)
    requires SameButGeometry(before, after) && GeometryScaled(before, after, k) && after.scale == newScale
    ensures RescaleElement(before, k, newScale) == after
  {
    ElementsEqual(RescaleElement(before, k, newScale), after);
  }

  /** A run of size w by h is at least a pixel wide and tall enough for the
      8-pixel font floor at scale s, so no size clamp applies to it. */
  predicate Unclamped(w: real, h: real, s: real) {
    w * s >= 1.0 && h * s >= 8.0
  }

  /** Two text boxes of the same run at scales s1 and s2 are scaled copies of
      each other when no clamp applies at either scale. */
  lemma TextBoxesScaled(before: Element, after: Element, x: real, top: real, f: real, w: real, h: real,
                        s1: real, s2: real)
    requires s1 > 0.0 && s2 > 0.0 && x >= 0.0 && f <= top
    requires Unclamped(w, h, s1) && Unclamped(w, h, s2)
    requires TextBox(before, x, top, f, w, h, s1) && TextBox(after, x, top, f, w, h, s2)
    ensures GeometryScaled(before, after, s2 / s1)
  {
    PositionsScaled(before.x, before.y, after.x, after.y, x, top, f, s1, s2);
    SizesScaled(before.width, before.height, before.fontSize, after.width, after.height, after.fontSize, w, h, s1, s2);
  }

  /** The clamped position of a run at origin (x, f) on a page of height top,
      at scales s1 and s2, are scaled copies of each other. */
  lemma PositionsScaled(x1: real, y1: real, x2: real, y2: real, x: real, top: real, f: real, s1: real, s2: real)
    requires s1 > 0.0 && s2 > 0.0 && x >= 0.0 && f <= top
    requires x1 == Max(0.0, x * s1) && y1 == Max(0.0, top * s1 - f * s1)
    requires x2 == Max(0.0, x * s2) && y2 == Max(0.0, top * s2 - f * s2)
    ensures x2 == x1 * (s2 / s1) && y2 == y1 * (s2 / s1)
  {
    ZeroClampScales(x, s1, s2);
    FlippedClampScales(top, f, s1, s2);
  }

  /** The clamped sizes of a run of size w by h at scales s1 and s2 are
      scaled copies of each other when no clamp applies. */
  lemma SizesScaled(w1: real, h1: real, font1: Option<real>, w2: real, h2: real, font2: Option<real>,
                    w: real, h: real, s1: real, s2: real)
    requires s1 > 0.0 && s2 > 0.0 && Unclamped(w, h, s1) && Unclamped(w, h, s2)
    requires w1 == Max(1.0, w * s1) && h1 == Max(1.0, h * s1) && font1 == Some(Max(8.0, h * s1))
    requires w2 == Max(1.0, w * s2) && h2 == Max(1.0, h * s2) && font2 == Some(Max(8.0, h * s2))
    ensures w2 == w1 * (s2 / s1) && h2 == h1 * (s2 / s1) && font2 == ScaledFontSize(font1, s2 / s1)
  {
    ClampScales(1.0, w, s1, s2);
    ClampScales(1.0, h, s1, s2);
    ClampScales(8.0, h, s1, s2);
    ScaledFontSizeIs(Max(8.0, h * s1), s2 / s1, Max(8.0, h * s2));
  }

  lemma FlippedClampScales(top: real, f: real, s1: real, s2: real)
    requires s1 > 0.0 && s2 > 0.0 && f <= top
    ensures Max(0.0, top * s1 - f * s1) * (s2 / s1) == Max(0.0, top * s2 - f * s2)
  {
    assert top * s1 - f * s1 == (top - f) * s1;
    assert top * s2 - f * s2 == (top - f) * s2;
    ZeroClampScales(top - f, s1, s2);
  }

  lemma RescaleTextGeometry(before: Element, after: Element, x: real, top: real, f: real, w: real, h: real,
                            s1: real, s2: real)
    requires s1 > 0.0 && s2 > 0.0 && x >= 0.0 && f <= top
    requires Unclamped(w, h, s1) && Unclamped(w, h, s2)
    requires SameButGeometry(before, after)
    requires TextBox(before, x, top, f, w, h, s1) && TextBox(after, x, top, f, w, h, s2)
    ensures RescaleElement(before, s2 / s1, s2) == after
  {
    TextBoxesScaled(before, after, x, top, f, w, h, s1, s2);
    RescaleMatches(before, after, s2 / s1, s2);
  }

  lemma TextRescaleLikeReparse(item: TextItem, pageNumber: nat, lineIndex: nat, itemIndex: nat,
                               pageHeight: real, oldScale: real, newScale: real)
    requires oldScale > 0.0 && newScale > 0.0
    requires item.transform.e >= 0.0 && item.transform.f <= pageHeight
    requires Unclamped(item.width, item.height, oldScale) && Unclamped(item.width, item.height, newScale)
    ensures RescaleElements([TextElementAt(item, pageNumber, lineIndex, itemIndex, pageHeight * oldScale, oldScale)],
                            newScale, oldScale)
            == [TextElementAt(item, pageNumber, lineIndex, itemIndex, pageHeight * newScale, newScale)]
  {
    TextOfRescaleLikeReparse(item, ClassifyText(item.height, item.str).Name(), pageNumber, lineIndex, itemIndex,
                             pageHeight, oldScale, newScale);
  }

  lemma TextOfRescaleLikeReparse(item: TextItem, subtype: string, pageNumber: nat, lineIndex: nat, itemIndex: nat,
                                 pageHeight: real, oldScale: real, newScale: real)
    requires oldScale > 0.0 && newScale > 0.0
    requires item.transform.e >= 0.0 && item.transform.f <= pageHeight
    requires Unclamped(item.width, item.height, oldScale) && Unclamped(item.width, item.height, newScale)
    ensures RescaleElements([TextElementOf(item, subtype, pageNumber, lineIndex, itemIndex, pageHeight * oldScale, oldScale)],
                            newScale, oldScale)
            == [TextElementOf(item, subtype, pageNumber, lineIndex, itemIndex, pageHeight * newScale, newScale)]
  {
    var before := TextElementOf(item, subtype, pageNumber, lineIndex, itemIndex, pageHeight * oldScale, oldScale);
    var after := TextElementOf(item, subtype, pageNumber, lineIndex, itemIndex, pageHeight * newScale, newScale);
    assert SameButGeometry(before, after);
    TextElementBox(item, subtype, pageNumber, lineIndex, itemIndex, pageHeight, oldScale);
    TextElementBox(item, subtype, pageNumber, lineIndex, itemIndex, pageHeight, newScale);
    RescaleLikeReparseOf(before, after, item.transform.e, pageHeight, item.transform.f, item.width, item.height,
                         oldScale, newScale);
  }

  lemma RescaleLikeReparseOf(before: Element, after: Element, x: real, top: real, f: real, w: real, h: real,
                             s1: real, s2: real)
    requires s1 > 0.0 && s2 > 0.0 && x >= 0.0 && f <= top
    requires Unclamped(w, h, s1) && Unclamped(w, h, s2)
    requires SameButGeometry(before, after)
    requires TextBox(before, x, top, f, w, h, s1) && TextBox(after, x, top, f, w, h, s2)
    ensures RescaleElements([before], s2, s1) == [after]
  {
    RescaleTextGeometry(before, after, x, top, f, w, h, s1, s2);
    RescaleSingleton(before, s2, s1);
  }

  lemma RescaleSingleton(e: Element, newScale: real, oldScale: real)
    requires oldScale != 0.0
    ensures RescaleElements([e], newScale, oldScale) == [RescaleElement(e, newScale / oldScale, newScale)]
  {
  }
}
