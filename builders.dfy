/** The four per-kind element builders of `PDFElementParser`: text runs
    (grouped into lines and classified), annotations, images (one per
    image-paint operator) and form fields (widget annotations with a field
    type). Each is a loop over what pdf.js returned, specified by a function
    over the same input. */
module Builders {
  import opened Wrappers
  import opened Lists
  import opened JsStrings
  import opened Elements
  import opened Classifier
  import opened LineGrouping

  /** `pdfjsLib.OPS.paintImageXObject`, the operator code of an image paint. */
  const PaintImageXObject: int := 85

  // ---------------------------------------------------------------- text

  /** The keep test of `parseTextElements`: not whitespace only, and
      something left after trimming. */
  predicate KeepsText(str: string) {
    !IsBlank(str) && Utf16Length(Trim(str)) > 0
  }

  predicate KeepsItem(item: TextItem) {
    KeepsText(item.str)
  }

  /** The second half of the keep test adds nothing: a run is kept exactly
      when it holds a character outside `\s`. */
  lemma KeepsTextIffNotBlank(str: string)
    ensures KeepsText(str) <==> !IsBlank(str)
  {
    TrimEmptyIffBlank(str);
  }

  /** The element built for item `itemIndex` of line `lineIndex`. */
  function TextElementAt(item: TextItem, pageNumber: nat, lineIndex: nat, itemIndex: nat,
                         viewportHeight: real, scale: real): (e: Element)
    ensures e.subtype == ClassifyText(item.height, item.str).Name()
  {
    TextElementOf(item, ClassifyText(item.height, item.str).Name(), pageNumber, lineIndex, itemIndex,
                  viewportHeight, scale)
  }

  /** The element built for a run once its subtype is known. */
  function TextElementOf(item: TextItem, subtype: string, pageNumber: nat, lineIndex: nat, itemIndex: nat,
                         viewportHeight: real, scale: real): (e: Element)
    ensures e.kind == Text && e.pageNumber == pageNumber && e.scale == scale
    ensures e.id == MakeId(Text, [pageNumber, lineIndex, itemIndex])
    ensures e.content == item.str && e.subtype == subtype
    ensures e.details.TextDetails? && e.details.lineIndex == lineIndex && e.details.itemIndex == itemIndex
    ensures e.details.isWhitespace <==> IsBlank(item.str)
    ensures e.x >= 0.0 && e.y >= 0.0 && e.width >= 1.0 && e.height >= 1.0
    ensures e.fontSize.Some? && e.fontSize.value >= 8.0 && e.fontSize.value >= e.height
  {
    var x := item.transform.e * scale;
    var y := viewportHeight - item.transform.f * scale;
    var width := item.width * scale;
    var height := item.height * scale;
    Element(
      MakeId(Text, [pageNumber, lineIndex, itemIndex]), Text, subtype, item.str,
      Max(0.0, x), Max(0.0, y), Max(1.0, width), Max(1.0, height), Some(Max(8.0, height)),
      pageNumber, scale,
      TextDetails(item.fontName, item.transform, IsBlank(item.str), lineIndex, itemIndex,
                  item.hasEOL, item.dir, item.width, item.height, item.transform.e, item.transform.f))
  }

  /** The run's origin maps to viewport pixels: x scaled, and y flipped so
      that it measures down from the top edge, both clamped at 0. */
  lemma TextCoordinateFlip(item: TextItem, pageNumber: nat, lineIndex: nat, itemIndex: nat,
                           viewportHeight: real, scale: real)
    ensures var e := TextElementAt(item, pageNumber, lineIndex, itemIndex, viewportHeight, scale);
            e.x == Max(0.0, item.transform.e * scale) && e.y == Max(0.0, viewportHeight - item.transform.f * scale)
            && (item.transform.e * scale >= 0.0 ==> e.x == item.transform.e * scale)
            && (viewportHeight - item.transform.f * scale >= 0.0 ==> e.y + item.transform.f * scale == viewportHeight)
  {
    TextOfCoordinateFlip(item, ClassifyText(item.height, item.str).Name(), pageNumber, lineIndex, itemIndex,
                         viewportHeight, scale);
  }

  lemma TextOfCoordinateFlip(item: TextItem, subtype: string, pageNumber: nat, lineIndex: nat, itemIndex: nat,
                             viewportHeight: real, scale: real)
    ensures var e := TextElementOf(item, subtype, pageNumber, lineIndex, itemIndex, viewportHeight, scale);
            e.x == Max(0.0, item.transform.e * scale) && e.y == Max(0.0, viewportHeight - item.transform.f * scale)
            && (item.transform.e * scale >= 0.0 ==> e.x == item.transform.e * scale)
            && (viewportHeight - item.transform.f * scale >= 0.0 ==> e.y + item.transform.f * scale == viewportHeight)
  {
    var e := TextElementOf(item, subtype, pageNumber, lineIndex, itemIndex, viewportHeight, scale);
    var x, y := item.transform.e * scale, viewportHeight - item.transform.f * scale;
    assert e.x == Max(0.0, x) && e.y == Max(0.0, y);
  }

  /** The geometry a text run at origin (x, f) with size w by h gets at
      scale s on a page of height top: the origin flipped to the top left,
      every length scaled, positions clamped at 0, sizes at 1 and the font at 8. */
  predicate TextBox(e: Element, x: real, top: real, f: real, w: real, h: real, s: real) {
    e.x == Max(0.0, x * s) && e.y == Max(0.0, top * s - f * s)
    && e.width == Max(1.0, w * s) && e.height == Max(1.0, h * s)
    && e.fontSize == Some(Max(8.0, h * s)) && e.scale == s
  }

  /** On a page of unscaled height `pageHeight` viewed at scale `s`, a text
      element has exactly the clamped, scaled box of its run. */
  lemma TextElementBox(item: TextItem, subtype: string, pageNumber: nat, lineIndex: nat, itemIndex: nat,
                       pageHeight: real, s: real)
    ensures TextBox(TextElementOf(item, subtype, pageNumber, lineIndex, itemIndex, pageHeight * s, s),
                    item.transform.e, pageHeight, item.transform.f, item.width, item.height, s)
  {
    var e := TextElementOf(item, subtype, pageNumber, lineIndex, itemIndex, pageHeight * s, s);
    var x, y, w, h := item.transform.e * s, pageHeight * s - item.transform.f * s, item.width * s, item.height * s;
    assert e.x == Max(0.0, x) && e.y == Max(0.0, y);
    assert e.width == Max(1.0, w) && e.height == Max(1.0, h);
    assert e.fontSize == Some(Max(8.0, h));
  }

  /** How an element is built from a run and its line and item positions. */
  type ItemBuilder = (TextItem, nat, nat) -> Element

  /** The builder `parseTextElements` uses on a page. */
  function TextBuilder(pageNumber: nat, viewportHeight: real, scale: real): ItemBuilder {
    (item: TextItem, lineIndex: nat, itemIndex: nat) =>
      TextElementAt(item, pageNumber, lineIndex, itemIndex, viewportHeight, scale)
  }

  /** `mk` records the line and item position in the element it builds. */
  ghost predicate Indexed(mk: ItemBuilder) {
    forall item: TextItem, lineIndex: nat, itemIndex: nat ::
      mk(item, lineIndex, itemIndex).details.TextDetails?
      && mk(item, lineIndex, itemIndex).details.lineIndex == lineIndex
      && mk(item, lineIndex, itemIndex).details.itemIndex == itemIndex
  }

  /** `e` is the text element of `item` at line `lineIndex`, position
      `itemIndex`, on page `pageNumber` at `scale`: its id, kind, content,
      page, scale and a visible box. */
  predicate TextLabel(e: Element, item: TextItem, pageNumber: nat, lineIndex: nat, itemIndex: nat, scale: real) {
    e.kind == Text && e.pageNumber == pageNumber && e.scale == scale
    && e.id == MakeId(Text, [pageNumber, lineIndex, itemIndex]) && e.content == item.str
    && e.x >= 0.0 && e.y >= 0.0 && e.width >= 1.0 && e.height >= 1.0
  }

  /** `mk` labels every element it builds as a text element of the page. */
  ghost predicate BuildsText(mk: ItemBuilder, pageNumber: nat, scale: real) {
    Indexed(mk)
    && forall item: TextItem, lineIndex: nat, itemIndex: nat ::
         TextLabel(mk(item, lineIndex, itemIndex), item, pageNumber, lineIndex, itemIndex, scale)
  }

  lemma TextBuilderBuildsText(pageNumber: nat, viewportHeight: real, scale: real)
    ensures BuildsText(TextBuilder(pageNumber, viewportHeight, scale), pageNumber, scale)
  {
    var mk := TextBuilder(pageNumber, viewportHeight, scale);
    forall item: TextItem, lineIndex: nat, itemIndex: nat
      ensures mk(item, lineIndex, itemIndex).details.TextDetails?
      ensures mk(item, lineIndex, itemIndex).details.lineIndex == lineIndex
      ensures mk(item, lineIndex, itemIndex).details.itemIndex == itemIndex
      ensures TextLabel(mk(item, lineIndex, itemIndex), item, pageNumber, lineIndex, itemIndex, scale)
    {
      var e := TextElementAt(item, pageNumber, lineIndex, itemIndex, viewportHeight, scale);
      assert mk(item, lineIndex, itemIndex) == e;
    }
  }

  /** The elements of the kept runs of one line, in item order. */
  function LineElements(line: seq<TextItem>, lineIndex: nat, keep: TextItem -> bool, mk: ItemBuilder): seq<Element>
    decreases |line|
  {
    if line == [] then []
    else
      var j := |line| - 1;
      LineElements(line[..j], lineIndex, keep, mk) + (if keep(line[j]) then [mk(line[j], lineIndex, j)] else [])
  }

  /** The elements of the kept runs of all lines, line by line. */
  function LinesElements(lines: seq<seq<TextItem>>, keep: TextItem -> bool, mk: ItemBuilder): seq<Element>
    decreases |lines|
  {
    if lines == [] then []
    else LinesElements(lines[..|lines| - 1], keep, mk) + LineElements(Last(lines), |lines| - 1, keep, mk)
  }

  /** The text elements of a page whose text content is `items`. */
  function TextElementsOf(items: seq<TextItem>, pageNumber: nat, viewportHeight: real, scale: real): seq<Element> {
    LinesElements(LinesOf(items), KeepsItem, TextBuilder(pageNumber, viewportHeight, scale))
  }

  /** `e` is the element of a kept item of `line`, line `lineIndex`. */
  predicate FromItem(line: seq<TextItem>, lineIndex: nat, e: Element, keep: TextItem -> bool, mk: ItemBuilder) {
    e.details.TextDetails? && e.details.lineIndex == lineIndex && e.details.itemIndex < |line|
    && keep(line[e.details.itemIndex])
    && e == mk(line[e.details.itemIndex], lineIndex, e.details.itemIndex)
  }

  /** `e` is the element of a kept item of some line of `lines`. */
  predicate FromLines(lines: seq<seq<TextItem>>, e: Element, keep: TextItem -> bool, mk: ItemBuilder) {
    e.details.TextDetails? && e.details.lineIndex < |lines|
    && FromItem(lines[e.details.lineIndex], e.details.lineIndex, e, keep, mk)
  }

  /** Text element `a` comes from an item before the item of `b`. */
  predicate TextBefore(a: Element, b: Element) {
    a.details.TextDetails? && b.details.TextDetails?
    && (a.details.lineIndex < b.details.lineIndex
        || (a.details.lineIndex == b.details.lineIndex && a.details.itemIndex < b.details.itemIndex))
  }

  /** `r` lists elements of kept items of `line`, in item order. */
  predicate ItemsInOrder(line: seq<TextItem>, lineIndex: nat, r: seq<Element>, keep: TextItem -> bool, mk: ItemBuilder) {
    (forall a :: 0 <= a < |r| ==> FromItem(line, lineIndex, r[a], keep, mk))
    && (forall a, b :: 0 <= a < b < |r| ==> r[a].details.itemIndex < r[b].details.itemIndex)
  }

  /** `r` lists elements of kept items of `lines`, in line and then item order. */
  predicate LinesInOrder(lines: seq<seq<TextItem>>, r: seq<Element>, keep: TextItem -> bool, mk: ItemBuilder) {
    (forall a :: 0 <= a < |r| ==> FromLines(lines, r[a], keep, mk))
    && (forall a, b :: 0 <= a < b < |r| ==> TextBefore(r[a], r[b]))
  }

  lemma {:induction false} LineElementsSound(line: seq<TextItem>, lineIndex: nat, keep: TextItem -> bool, mk: ItemBuilder)
    requires Indexed(mk)
    ensures ItemsInOrder(line, lineIndex, LineElements(line, lineIndex, keep, mk), keep, mk)
    decreases |line|
  {
    if line != [] {
      var j := |line| - 1;
      var init := line[..j];
      LineElementsSound(init, lineIndex, keep, mk);
      var r0 := LineElements(init, lineIndex, keep, mk);
      forall a | 0 <= a < |r0|
        ensures FromItem(line, lineIndex, r0[a], keep, mk) && r0[a].details.itemIndex < j
      {
        assert FromItem(init, lineIndex, r0[a], keep, mk);
        assert init[r0[a].details.itemIndex] == line[r0[a].details.itemIndex];
      }
      if keep(line[j]) {
        var e := mk(line[j], lineIndex, j);
        assert e.details.TextDetails? && e.details.lineIndex == lineIndex && e.details.itemIndex == j;
        ItemsInOrderSnoc(line, lineIndex, r0, e, keep, mk);
      }
    }
  }

  /** An element of a later item appended to elements in item order keeps the order. */
  lemma ItemsInOrderSnoc(line: seq<TextItem>, lineIndex: nat, r0: seq<Element>, e: Element, keep: TextItem -> bool, mk: ItemBuilder)
    requires FromItem(line, lineIndex, e, keep, mk) && ItemsInOrder(line, lineIndex, r0, keep, mk)
    requires forall a :: 0 <= a < |r0| ==> r0[a].details.itemIndex < e.details.itemIndex
    ensures ItemsInOrder(line, lineIndex, r0 + [e], keep, mk)
  {
    var r := r0 + [e];
    forall a | 0 <= a < |r| ensures FromItem(line, lineIndex, r[a], keep, mk) {
      if a < |r0| {
        assert r[a] == r0[a];
      }
    }
    forall a, b | 0 <= a < b < |r| ensures r[a].details.itemIndex < r[b].details.itemIndex {
      assert r[a] == r0[a];
    }
  }

  /** Appending the elements of a further line keeps the order. */
  lemma LinesInOrderSnoc(init: seq<seq<TextItem>>, line: seq<TextItem>, r0: seq<Element>, r1: seq<Element>,
                         keep: TextItem -> bool, mk: ItemBuilder)
    requires LinesInOrder(init, r0, keep, mk)
    requires ItemsInOrder(line, |init|, r1, keep, mk)
    ensures LinesInOrder(init + [line], r0 + r1, keep, mk)
  {
    var lines, r := init + [line], r0 + r1;
    forall a | 0 <= a < |r|
      ensures r[a].details.TextDetails?
      ensures FromLines(lines, r[a], keep, mk)
      ensures a < |r0| ==> r[a].details.lineIndex < |init|
      ensures |r0| <= a ==> r[a].details.lineIndex == |init|
    {
      if a < |r0| {
        assert r[a] == r0[a];
        assert FromLines(init, r0[a], keep, mk);
        assert init[r0[a].details.lineIndex] == lines[r0[a].details.lineIndex];
      } else {
        assert r[a] == r1[a - |r0|];
        assert FromItem(line, |init|, r1[a - |r0|], keep, mk);
        assert lines[|init|] == line;
      }
    }
    forall a, b | 0 <= a < b < |r| ensures TextBefore(r[a], r[b]) {
      if a < |r0| && b < |r0| {
        assert r[a] == r0[a] && r[b] == r0[b];
      } else if |r0| <= a {
        assert r[a] == r1[a - |r0|] && r[b] == r1[b - |r0|];
      }
    }
  }

  lemma {:induction false} LinesElementsSound(lines: seq<seq<TextItem>>, keep: TextItem -> bool, mk: ItemBuilder)
    requires Indexed(mk)
    ensures LinesInOrder(lines, LinesElements(lines, keep, mk), keep, mk)
    decreases |lines|
  {
    if lines != [] {
      var m := |lines| - 1;
      var init := lines[..m];
      LinesElementsSound(init, keep, mk);
      LineElementsSound(lines[m], m, keep, mk);
      assert lines == init + [lines[m]];
      LinesInOrderSnoc(init, lines[m], LinesElements(init, keep, mk), LineElements(lines[m], m, keep, mk), keep, mk);
    }
  }

  lemma {:induction false} LineElementsComplete(line: seq<TextItem>, lineIndex: nat, keep: TextItem -> bool, mk: ItemBuilder, j: nat)
    requires j < |line| && keep(line[j])
    ensures mk(line[j], lineIndex, j) in LineElements(line, lineIndex, keep, mk)
    decreases |line|
  {
    if j < |line| - 1 {
      var init := line[..|line| - 1];
      assert init[j] == line[j];
      LineElementsComplete(init, lineIndex, keep, mk, j);
    }
  }

  lemma {:induction false} LinesElementsComplete(lines: seq<seq<TextItem>>, keep: TextItem -> bool, mk: ItemBuilder, k: nat, j: nat)
    requires k < |lines| && j < |lines[k]| && keep(lines[k][j])
    ensures mk(lines[k][j], k, j) in LinesElements(lines, keep, mk)
    decreases |lines|
  {
    if k < |lines| - 1 {
      var init := lines[..|lines| - 1];
      assert init[k] == lines[k];
      LinesElementsComplete(init, keep, mk, k, j);
    } else {
      LineElementsComplete(lines[k], k, keep, mk, j);
    }
  }

  /** Each text element of a page is the element of a non-blank run at its
      line and item position, the elements come in line order and then item
      order, and every non-blank run has its element. */
  lemma TextElementsExact(items: seq<TextItem>, pageNumber: nat, viewportHeight: real, scale: real)
    ensures var lines := LinesOf(items);
            var mk := TextBuilder(pageNumber, viewportHeight, scale);
            var r := TextElementsOf(items, pageNumber, viewportHeight, scale);
            (forall a :: 0 <= a < |r| ==> FromLines(lines, r[a], KeepsItem, mk))
            && (forall a, b :: 0 <= a < b < |r| ==> TextBefore(r[a], r[b]))
            && (forall k, j :: 0 <= k < |lines| && 0 <= j < |lines[k]| && !IsBlank(lines[k][j].str) ==>
                 mk(lines[k][j], k, j) in r)
  {
    var lines := LinesOf(items);
    var mk := TextBuilder(pageNumber, viewportHeight, scale);
    var keep := KeepsItem;
    TextBuilderBuildsText(pageNumber, viewportHeight, scale);
    LinesElementsSound(lines, keep, mk);
    forall k, j | 0 <= k < |lines| && 0 <= j < |lines[k]| && !IsBlank(lines[k][j].str)
      ensures mk(lines[k][j], k, j) in LinesElements(lines, keep, mk)
    {
      KeepsTextIffNotBlank(lines[k][j].str);
      LinesElementsComplete(lines, keep, mk, k, j);
    }
  }

  /** Elements built with distinct line and item positions have distinct
      ids, so no two elements of the lines share one. */
  lemma LinesIdsDistinct(lines: seq<seq<TextItem>>, keep: TextItem -> bool, mk: ItemBuilder, pageNumber: nat, scale: real)
    requires BuildsText(mk, pageNumber, scale)
    ensures var r := LinesElements(lines, keep, mk);
            forall a, b :: 0 <= a < b < |r| ==> r[a].id != r[b].id
  {
    var r := LinesElements(lines, keep, mk);
    LinesElementsSound(lines, keep, mk);
    forall a, b | 0 <= a < b < |r| ensures r[a].id != r[b].id {
      assert FromLines(lines, r[a], keep, mk) && FromLines(lines, r[b], keep, mk) && TextBefore(r[a], r[b]);
      TextLabelOf(lines, r[a], keep, mk, pageNumber, scale);
      TextLabelOf(lines, r[b], keep, mk, pageNumber, scale);
      TextIdsOrdered(r[a], r[b], pageNumber);
    }
  }

  /** An element of the lines carries the label of its run. */
  lemma TextLabelOf(lines: seq<seq<TextItem>>, e: Element, keep: TextItem -> bool, mk: ItemBuilder, pageNumber: nat, scale: real)
    requires BuildsText(mk, pageNumber, scale) && FromLines(lines, e, keep, mk)
    ensures TextLabel(e, lines[e.details.lineIndex][e.details.itemIndex], pageNumber,
                      e.details.lineIndex, e.details.itemIndex, scale)
  {
    var k, j := e.details.lineIndex, e.details.itemIndex;
    assert e == mk(lines[k][j], k, j);
  }

  /** No two text elements of a page share an id. */
  lemma TextIdsDistinct(items: seq<TextItem>, pageNumber: nat, viewportHeight: real, scale: real)
    ensures var r := TextElementsOf(items, pageNumber, viewportHeight, scale);
            forall a, b :: 0 <= a < b < |r| ==> r[a].id != r[b].id
  {
    var mk := TextBuilder(pageNumber, viewportHeight, scale);
    var keep := KeepsItem;
    TextBuilderBuildsText(pageNumber, viewportHeight, scale);
    LinesIdsDistinct(LinesOf(items), keep, mk, pageNumber, scale);
    assert forall a, b :: 0 <= a < b < |LinesElements(LinesOf(items), keep, mk)| ==>
             LinesElements(LinesOf(items), keep, mk)[a].id != LinesElements(LinesOf(items), keep, mk)[b].id;
    assert TextElementsOf(items, pageNumber, viewportHeight, scale) == LinesElements(LinesOf(items), keep, mk);
  }

  /** Text ids are `text-{page}-{line}-{item}`, so a run before another has another id. */
  lemma TextIdsOrdered(a: Element, b: Element, pageNumber: nat)
    requires TextBefore(a, b)
    requires a.id == MakeId(Text, [pageNumber, a.details.lineIndex, a.details.itemIndex])
    requires b.id == MakeId(Text, [pageNumber, b.details.lineIndex, b.details.itemIndex])
    ensures a.id != b.id
  {
    var da, db := a.details, b.details;
    MakeIdInjective(Text, [pageNumber, da.lineIndex, da.itemIndex], Text, [pageNumber, db.lineIndex, db.itemIndex]);
    assert [pageNumber, da.lineIndex, da.itemIndex][1..] == [da.lineIndex, da.itemIndex];
    assert [pageNumber, db.lineIndex, db.itemIndex][1..] == [db.lineIndex, db.itemIndex];
  }

  /** The strings of the runs, in order. */
  function Strings(items: seq<TextItem>): seq<string> {
    seq(|items|, i requires 0 <= i < |items| => items[i].str)
  }

  /** The contents of the elements, in order. */
  function Contents(elements: seq<Element>): seq<string> {
    seq(|elements|, i requires 0 <= i < |elements| => elements[i].content)
  }

  /** Appending elements appends their contents, and appending runs their strings. */
  lemma ContentsAppend(a: seq<Element>, b: seq<Element>)
    ensures Contents(a + b) == Contents(a) + Contents(b)
  {
  }

  lemma StringsAppend(a: seq<TextItem>, b: seq<TextItem>)
    ensures Strings(a + b) == Strings(a) + Strings(b)
  {
  }

  /** `mk` gives each element the string of its run as content. */
  ghost predicate KeepsContent(mk: ItemBuilder) {
    forall item: TextItem, lineIndex: nat, itemIndex: nat :: mk(item, lineIndex, itemIndex).content == item.str
  }

  lemma {:induction false} LineContents(line: seq<TextItem>, lineIndex: nat, keep: TextItem -> bool, mk: ItemBuilder)
    requires KeepsContent(mk)
    ensures Contents(LineElements(line, lineIndex, keep, mk)) == Strings(Filter(line, keep))
    decreases |line|
  {
    if line != [] {
      var j := |line| - 1;
      var init := line[..j];
      LineContents(init, lineIndex, keep, mk);
      assert line == init + [line[j]];
      FilterSnoc(init, line[j], keep);
      var more := if keep(line[j]) then [mk(line[j], lineIndex, j)] else [];
      var moreItems := if keep(line[j]) then [line[j]] else [];
      assert Contents(more) == Strings(moreItems);
      ContentsAppend(LineElements(init, lineIndex, keep, mk), more);
      StringsAppend(Filter(init, keep), moreItems);
    }
  }

  lemma {:induction false} LinesContents(lines: seq<seq<TextItem>>, keep: TextItem -> bool, mk: ItemBuilder)
    requires KeepsContent(mk)
    ensures Contents(LinesElements(lines, keep, mk)) == Strings(Filter(Flatten(lines), keep))
    decreases |lines|
  {
    if lines != [] {
      var m := |lines| - 1;
      var init := lines[..m];
      LinesContents(init, keep, mk);
      LineContents(lines[m], m, keep, mk);
      FilterAppend(Flatten(init), lines[m], keep);
      ContentsAppend(LinesElements(init, keep, mk), LineElements(lines[m], m, keep, mk));
      StringsAppend(Filter(Flatten(init), keep), Filter(lines[m], keep));
    }
  }

  /** Reading the text elements of a page gives the strings of its non-blank
      runs, in content-stream order: grouping into lines neither loses nor
      reorders a run. */
  lemma TextContentsInStreamOrder(items: seq<TextItem>, pageNumber: nat, viewportHeight: real, scale: real)
    ensures Contents(TextElementsOf(items, pageNumber, viewportHeight, scale))
            == Strings(Filter(items, KeepsItem))
  {
    var mk := TextBuilder(pageNumber, viewportHeight, scale);
    var keep := KeepsItem;
    TextBuilderBuildsText(pageNumber, viewportHeight, scale);
    assert KeepsContent(mk) by {
      forall item: TextItem, lineIndex: nat, itemIndex: nat ensures mk(item, lineIndex, itemIndex).content == item.str {
        assert TextLabel(mk(item, lineIndex, itemIndex), item, pageNumber, lineIndex, itemIndex, scale);
      }
    }
    LinesOfIsLineGrouping(items);
    LinesContents(LinesOf(items), keep, mk);
  }

  lemma LineElementsSnoc(line: seq<TextItem>, lineIndex: nat, keep: TextItem -> bool, mk: ItemBuilder, i: nat)
    requires i < |line|
    ensures LineElements(line[..i + 1], lineIndex, keep, mk)
            == LineElements(line[..i], lineIndex, keep, mk) + (if keep(line[i]) then [mk(line[i], lineIndex, i)] else [])
  {
    assert line[..i + 1][..i] == line[..i];
  }

  lemma LinesElementsSnoc(lines: seq<seq<TextItem>>, keep: TextItem -> bool, mk: ItemBuilder, k: nat)
    requires k < |lines|
    ensures LinesElements(lines[..k + 1], keep, mk) == LinesElements(lines[..k], keep, mk) + LineElements(lines[k], k, keep, mk)
  {
    assert lines[..k + 1][..k] == lines[..k];
  }

  /** `parseTextElements`: None when `getTextContent` rejects, otherwise the
      elements of the kept runs, built line by line and item by item. */
  method ParseTextElements(textContent: Option<seq<TextItem>>, viewportHeight: real,
                           pageNumber: nat, scale: real) returns (r: Option<seq<Element>>)
    ensures textContent.None? ==> r.None?
    ensures textContent.Some? ==> r == Some(TextElementsOf(textContent.value, pageNumber, viewportHeight, scale))
  {
    if textContent.None? {
      return None;
    }
    var mk := TextBuilder(pageNumber, viewportHeight, scale);
    var lines := GroupTextIntoLines(textContent.value);
    var elements: seq<Element> := [];
    for lineIndex := 0 to |lines|
      invariant elements == LinesElements(lines[..lineIndex], KeepsItem, mk)
    {
      var run := ParseLine(lines[lineIndex], lineIndex, viewportHeight, pageNumber, scale);
      elements := elements + run;
      LinesElementsSnoc(lines, KeepsItem, mk, lineIndex);
    }
    assert lines[..|lines|] == lines;
    return Some(elements);
  }

  /** The inner loop of `parseTextElements`: the elements of the kept runs
      of line `lineIndex`, in item order. */
  method ParseLine(line: seq<TextItem>, lineIndex: nat, viewportHeight: real, pageNumber: nat, scale: real)
    returns (r: seq<Element>)
    ensures r == LineElements(line, lineIndex, KeepsItem, TextBuilder(pageNumber, viewportHeight, scale))
  {
    var mk := TextBuilder(pageNumber, viewportHeight, scale);
    r := [];
    for itemIndex := 0 to |line|
      invariant r == LineElements(line[..itemIndex], lineIndex, KeepsItem, mk)
    {
      var element := TextElementAt(line[itemIndex], pageNumber, lineIndex, itemIndex, viewportHeight, scale);
      LineElementsSnoc(line, lineIndex, KeepsItem, mk, itemIndex);
      assert KeepsItem(line[itemIndex]) <==> !element.details.isWhitespace && Utf16Length(Trim(element.content)) > 0;
      assert element == mk(line[itemIndex], lineIndex, itemIndex);
      if !element.details.isWhitespace && Utf16Length(Trim(element.content)) > 0 {
        r := r + [element];
      }
    }
    assert line[..|line|] == line;
  }


  // --------------------------------------------------------- annotations

  /** The element built for annotation `index`: the rectangle flipped into
      viewport space and clamped to at least 10 × 10, the content falling back
      from `contents` to `title` to "<subtype> annotation". */
  function AnnotationElementAt(a: AnnotationData, pageNumber: nat, index: nat,
                               viewportHeight: real, scale: real): (e: Element)
    ensures e.kind == Annotation && e.pageNumber == pageNumber && e.scale == scale && e.fontSize.None?
    ensures e.id == MakeId(Annotation, [pageNumber, index])
    ensures e.details.AnnotationDetails? && e.details.annotation == a
    ensures e.subtype != "" && (Truthy(a.subtype) ==> e.subtype == a.subtype.value)
    ensures !Truthy(a.subtype) ==> e.subtype == "unknown"
    ensures e.content != ""
    ensures Truthy(a.contents) ==> e.content == a.contents.value
    ensures !Truthy(a.contents) && Truthy(a.title) ==> e.content == a.title.value
    ensures !Truthy(a.contents) && !Truthy(a.title) ==> e.content == Interpolate(a.subtype) + " annotation"
    ensures e.details.hasContent <==> Truthy(a.contents) || Truthy(a.title)
    ensures e.x == Max(0.0, a.rect.x0 * scale) && e.y == Max(0.0, viewportHeight - a.rect.y1 * scale)
    ensures e.width == Max(10.0, (a.rect.x1 - a.rect.x0) * scale) && e.height == Max(10.0, (a.rect.y1 - a.rect.y0) * scale)
    ensures e.x >= 0.0 && e.y >= 0.0 && e.width >= 10.0 && e.height >= 10.0
  {
    var x := a.rect.x0 * scale;
    var y := viewportHeight - a.rect.y1 * scale;
    var width := (a.rect.x1 - a.rect.x0) * scale;
    var height := (a.rect.y1 - a.rect.y0) * scale;
    Element(
      MakeId(Annotation, [pageNumber, index]), Annotation,
      OrElse(a.subtype, "unknown"),
      OrElse(a.contents, OrElse(a.title, Interpolate(a.subtype) + " annotation")),
      Max(0.0, x), Max(0.0, y), Max(10.0, width), Max(10.0, height), None,
      pageNumber, scale,
      AnnotationDetails(a, a.subtype, Truthy(a.contents) || Truthy(a.title), a.url, a.dest, a.rect))
  }

  /** Inside the page the rectangle's top-left corner maps to viewport
      pixels: x scaled, and the top edge flipped to measure down from the top. */
  lemma AnnotationCoordinateFlip(a: AnnotationData, pageNumber: nat, index: nat, viewportHeight: real, scale: real)
    ensures var e := AnnotationElementAt(a, pageNumber, index, viewportHeight, scale);
            (a.rect.x0 * scale >= 0.0 ==> e.x == a.rect.x0 * scale)
            && (viewportHeight - a.rect.y1 * scale >= 0.0 ==> e.y + a.rect.y1 * scale == viewportHeight)
  {
    var e := AnnotationElementAt(a, pageNumber, index, viewportHeight, scale);
    var x, y := a.rect.x0 * scale, viewportHeight - a.rect.y1 * scale;
    assert e.x == Max(0.0, x) && e.y == Max(0.0, y);
  }

  /** The builder `parseAnnotations` applies to each annotation and its index. */
  function AnnotationBuilder(pageNumber: nat, viewportHeight: real, scale: real): (AnnotationData, nat) -> Element {
    (a: AnnotationData, index: nat) => AnnotationElementAt(a, pageNumber, index, viewportHeight, scale)
  }

  /** One element per annotation, in the order pdf.js lists them. */
  function AnnotationElementsOf(annotations: seq<AnnotationData>, pageNumber: nat,
                                viewportHeight: real, scale: real): seq<Element>
  {
    MapIndexed(annotations, AnnotationBuilder(pageNumber, viewportHeight, scale))
  }

  /** No two annotation elements of a page share an id. */
  lemma AnnotationIdsDistinct(annotations: seq<AnnotationData>, pageNumber: nat,
                              viewportHeight: real, scale: real)
    ensures var r := AnnotationElementsOf(annotations, pageNumber, viewportHeight, scale);
            |r| == |annotations| && forall a, b :: 0 <= a < b < |r| ==> r[a].id != r[b].id
  {
    var r := AnnotationElementsOf(annotations, pageNumber, viewportHeight, scale);
    forall a, b | 0 <= a < b < |r| ensures r[a].id != r[b].id {
      MakeIdInjective(Annotation, [pageNumber, a], Annotation, [pageNumber, b]);
      assert [pageNumber, a][1] != [pageNumber, b][1];
    }
  }

  lemma AnnotationElementsSnoc(annotations: seq<AnnotationData>, pageNumber: nat,
                               viewportHeight: real, scale: real, i: nat)
    requires i < |annotations|
    ensures AnnotationElementsOf(annotations[..i + 1], pageNumber, viewportHeight, scale)
            == AnnotationElementsOf(annotations[..i], pageNumber, viewportHeight, scale)
               + [AnnotationElementAt(annotations[i], pageNumber, i, viewportHeight, scale)]
  {
    MapIndexedSnoc(annotations, AnnotationBuilder(pageNumber, viewportHeight, scale), i);
  }

  /** `parseAnnotations`: None when `getAnnotations` rejects, otherwise one
      element per annotation. */
  method ParseAnnotations(annotations: Option<seq<AnnotationData>>, viewportHeight: real,
                          pageNumber: nat, scale: real) returns (r: Option<seq<Element>>)
    ensures annotations.None? ==> r.None?
    ensures annotations.Some? ==> r == Some(AnnotationElementsOf(annotations.value, pageNumber, viewportHeight, scale))
  {
    if annotations.None? {
      return None;
    }
    var all := annotations.value;
    var elements: seq<Element> := [];
    for index := 0 to |all|
      invariant elements == AnnotationElementsOf(all[..index], pageNumber, viewportHeight, scale)
    {
      AnnotationElementsSnoc(all, pageNumber, viewportHeight, scale, index);
      elements := elements + [AnnotationElementAt(all[index], pageNumber, index, viewportHeight, scale)];
    }
    assert all[..|all|] == all;
    return Some(elements);
  }

  // -------------------------------------------------------------- images

  predicate IsImagePaint(op: int) {
    op == PaintImageXObject
  }

  /** The placeholder element of the `imageIndex`-th image paint, found at
      `operatorIndex` in the operator list: a 100 × 100 box (scaled) at
      (50, 50), each further image 100 lower. */
  function ImageElementAt(pageNumber: nat, imageIndex: nat, operatorIndex: nat, scale: real): (e: Element)
    ensures e.kind == Image && e.subtype == "embedded" && e.pageNumber == pageNumber && e.scale == scale
    ensures e.id == MakeId(Image, [pageNumber, imageIndex])
    ensures e.content == "Image " + NatToString(imageIndex + 1)
    ensures e.details == ImageDetails(operatorIndex, imageIndex) && e.fontSize.None?
    ensures e.x == 50.0 * scale && e.y == ImageTop(imageIndex, scale)
    ensures e.width == 100.0 * scale && e.height == e.width
  {
    Element(
      MakeId(Image, [pageNumber, imageIndex]), Image, "embedded",
      "Image " + NatToString(imageIndex + 1),
      50.0 * scale, ImageTop(imageIndex, scale), 100.0 * scale, 100.0 * scale, None,
      pageNumber, scale, ImageDetails(operatorIndex, imageIndex))
  }

  /** The top edge of placeholder `imageIndex`: 50 down, plus 100 for each image above it, scaled. */
  function ImageTop(imageIndex: nat, scale: real): real {
    50.0 * scale + imageIndex as real * 100.0 * scale
  }

  /** Each placeholder starts one image height below the previous one. */
  lemma ImageTopStep(k: nat, scale: real)
    ensures ImageTop(k + 1, scale) == ImageTop(k, scale) + 100.0 * scale
  {
    var n0, n1 := k as real, (k + 1) as real;
    assert n1 * 100.0 == n0 * 100.0 + 100.0;
  }

  /** At a positive scale a placeholder sits inside the page and has a size. */
  lemma ImagePlaceholderVisible(pageNumber: nat, imageIndex: nat, operatorIndex: nat, scale: real)
    requires scale > 0.0
    ensures var e := ImageElementAt(pageNumber, imageIndex, operatorIndex, scale);
            e.x > 0.0 && e.y > 0.0 && e.width > 0.0 && e.height > 0.0
  {
    var n := imageIndex as real;
    assert n * 100.0 * scale >= 0.0;
  }

  /** One element per image-paint operator, numbered in operator order. */
  function ImageElementsOf(operators: seq<int>, pageNumber: nat, scale: real): seq<Element> {
    var at := Positions(operators, IsImagePaint);
    seq(|at|, k requires 0 <= k < |at| => ImageElementAt(pageNumber, k, at[k], scale))
  }

  /** Image `k` records the operator it was found at, which is an image paint
      preceded by exactly `k` others; an operator has an image element exactly
      when it paints an image. */
  lemma ImagesMatchPaintOperators(operators: seq<int>, pageNumber: nat, scale: real)
    ensures var r := ImageElementsOf(operators, pageNumber, scale);
            (forall k :: 0 <= k < |r| ==>
               r[k].details.ImageDetails? && r[k].details.imageIndex == k
               && r[k].details.operatorIndex < |operators|
               && IsImagePaint(operators[r[k].details.operatorIndex])
               && |Positions(operators[..r[k].details.operatorIndex], IsImagePaint)| == k)
            && (forall i :: 0 <= i < |operators| ==>
                 (IsImagePaint(operators[i]) <==> exists k :: 0 <= k < |r| && r[k].details.operatorIndex == i))
  {
    var r := ImageElementsOf(operators, pageNumber, scale);
    var at := Positions(operators, IsImagePaint);
    forall k | 0 <= k < |r|
      ensures |Positions(operators[..r[k].details.operatorIndex], IsImagePaint)| == k
    {
      PositionsPrefix(operators, IsImagePaint, k);
    }
    forall i | 0 <= i < |operators| && IsImagePaint(operators[i])
      ensures exists k :: 0 <= k < |r| && r[k].details.operatorIndex == i
    {
      PositionsComplete(operators, IsImagePaint, i);
      var k :| 0 <= k < |at| && at[k] == i;
      assert r[k].details.operatorIndex == i;
    }
  }

  lemma ImageBelowPrevious(pageNumber: nat, k: nat, op0: nat, op1: nat, scale: real)
    ensures var above, below := ImageElementAt(pageNumber, k, op0, scale), ImageElementAt(pageNumber, k + 1, op1, scale);
            below.x == above.x && below.y == above.y + above.height
  {
    ImageTopStep(k, scale);
  }

  /** The placeholders are stacked: each image starts where the one above it
      ends, at the same left edge. */
  lemma ImagesStacked(operators: seq<int>, pageNumber: nat, scale: real)
    ensures var r := ImageElementsOf(operators, pageNumber, scale);
            forall k :: 0 < k < |r| ==> r[k].x == r[k - 1].x && r[k].y == r[k - 1].y + r[k - 1].height
  {
    var r := ImageElementsOf(operators, pageNumber, scale);
    var at := Positions(operators, IsImagePaint);
    forall k | 0 < k < |r| ensures r[k].x == r[k - 1].x && r[k].y == r[k - 1].y + r[k - 1].height {
      ImageBelowPrevious(pageNumber, k - 1, at[k - 1], at[k], scale);
    }
  }

  /** No two image elements of a page share an id. */
  lemma ImageIdsDistinct(operators: seq<int>, pageNumber: nat, scale: real)
    ensures var r := ImageElementsOf(operators, pageNumber, scale);
            forall a, b :: 0 <= a < b < |r| ==> r[a].id != r[b].id
  {
    var r := ImageElementsOf(operators, pageNumber, scale);
    forall a, b | 0 <= a < b < |r| ensures r[a].id != r[b].id {
      MakeIdInjective(Image, [pageNumber, a], Image, [pageNumber, b]);
      assert [pageNumber, a][1] != [pageNumber, b][1];
    }
  }

  lemma ImageElementsSnoc(operators: seq<int>, pageNumber: nat, scale: real, i: nat)
    requires i < |operators|
    ensures var before := ImageElementsOf(operators[..i], pageNumber, scale);
            ImageElementsOf(operators[..i + 1], pageNumber, scale)
            == before + (if IsImagePaint(operators[i]) then [ImageElementAt(pageNumber, |before|, i, scale)] else [])
  {
    PositionsSnoc(operators, IsImagePaint, i);
  }

  /** `parseImages`: scans the operator list, counting image paints; nothing
      when `getOperatorList` rejects. */
  method ParseImages(operators: Option<seq<int>>, pageNumber: nat, scale: real) returns (r: seq<Element>)
    ensures operators.None? ==> r == []
    ensures operators.Some? ==> r == ImageElementsOf(operators.value, pageNumber, scale)
  {
    var elements: seq<Element> := [];
    if operators.Some? {
      var fnArray := operators.value;
      var imageIndex: nat := 0;
      for i := 0 to |fnArray|
        invariant elements == ImageElementsOf(fnArray[..i], pageNumber, scale)
        invariant imageIndex == |elements|
      {
        ImageElementsSnoc(fnArray, pageNumber, scale, i);
        if fnArray[i] == PaintImageXObject {
          elements := elements + [ImageElementAt(pageNumber, imageIndex, i, scale)];
          imageIndex := imageIndex + 1;
        }
      }
      assert fnArray[..|fnArray|] == fnArray;
    }
    return elements;
  }

  // --------------------------------------------------------- form fields

  /** An annotation describes a form field when its `fieldType` is truthy. */
  predicate HasFieldType(a: AnnotationData) {
    Truthy(a.fieldType)
  }

  /** The element built for the widget annotation `index`: clamped to at least
      20 × 15, its content the field's name or "<type> field". */
  function FormElementAt(a: AnnotationData, pageNumber: nat, index: nat,
                         viewportHeight: real, scale: real): (e: Element)
    requires HasFieldType(a)
    ensures e.kind == FormField && e.pageNumber == pageNumber && e.scale == scale && e.fontSize.None?
    ensures e.id == MakeId(FormField, [pageNumber, index])
    ensures e.subtype == a.fieldType.value && e.subtype != ""
    ensures e.details.FormDetails? && e.details.annotation == a
    ensures e.content != ""
    ensures Truthy(a.fieldName) ==> e.content == a.fieldName.value
    ensures !Truthy(a.fieldName) ==> e.content == a.fieldType.value + " field"
    ensures e.x == Max(0.0, a.rect.x0 * scale) && e.y == Max(0.0, viewportHeight - a.rect.y1 * scale)
    ensures e.width == Max(20.0, (a.rect.x1 - a.rect.x0) * scale) && e.height == Max(15.0, (a.rect.y1 - a.rect.y0) * scale)
    ensures e.x >= 0.0 && e.y >= 0.0 && e.width >= 20.0 && e.height >= 15.0
  {
    var x := a.rect.x0 * scale;
    var y := viewportHeight - a.rect.y1 * scale;
    var width := (a.rect.x1 - a.rect.x0) * scale;
    var height := (a.rect.y1 - a.rect.y0) * scale;
    Element(
      MakeId(FormField, [pageNumber, index]), FormField,
      a.fieldType.value, OrElse(a.fieldName, Interpolate(a.fieldType) + " field"),
      Max(0.0, x), Max(0.0, y), Max(20.0, width), Max(15.0, height), None,
      pageNumber, scale,
      FormDetails(a, a.fieldType, a.fieldName, a.fieldValue, a.required, a.readOnly, a.rect))
  }

  /** Inside the page the rectangle's top-left corner maps to viewport
      pixels: x scaled, and the top edge flipped to measure down from the top. */
  lemma FormCoordinateFlip(a: AnnotationData, pageNumber: nat, index: nat, viewportHeight: real, scale: real)
    requires HasFieldType(a)
    ensures var e := FormElementAt(a, pageNumber, index, viewportHeight, scale);
            (a.rect.x0 * scale >= 0.0 ==> e.x == a.rect.x0 * scale)
            && (viewportHeight - a.rect.y1 * scale >= 0.0 ==> e.y + a.rect.y1 * scale == viewportHeight)
  {
    var e := FormElementAt(a, pageNumber, index, viewportHeight, scale);
    var x, y := a.rect.x0 * scale, viewportHeight - a.rect.y1 * scale;
    assert e.x == Max(0.0, x) && e.y == Max(0.0, y);
  }

  /** One element per annotation with a field type, keeping the annotation's
      own index in the id. */
  function FormElementsOf(annotations: seq<AnnotationData>, pageNumber: nat,
                          viewportHeight: real, scale: real): seq<Element> {
    var at := Positions(annotations, HasFieldType);
    seq(|at|, k requires 0 <= k < |at| =>
      FormElementAt(annotations[at[k]], pageNumber, at[k], viewportHeight, scale))
  }

  /** An annotation has a form element exactly when its field type is truthy;
      the element is found by the annotation's own index in its id. */
  lemma FormFieldsMatchAnnotations(annotations: seq<AnnotationData>, pageNumber: nat,
                                   viewportHeight: real, scale: real)
    ensures var r := FormElementsOf(annotations, pageNumber, viewportHeight, scale);
            forall i :: 0 <= i < |annotations| ==>
              (HasFieldType(annotations[i])
               <==> exists k :: 0 <= k < |r| && r[k].id == MakeId(FormField, [pageNumber, i]))
  {
    var r := FormElementsOf(annotations, pageNumber, viewportHeight, scale);
    var at := Positions(annotations, HasFieldType);
    forall i | 0 <= i < |annotations|
      ensures HasFieldType(annotations[i])
              <==> exists k :: 0 <= k < |r| && r[k].id == MakeId(FormField, [pageNumber, i])
    {
      if HasFieldType(annotations[i]) {
        PositionsComplete(annotations, HasFieldType, i);
        var k :| 0 <= k < |at| && at[k] == i;
        assert r[k].id == MakeId(FormField, [pageNumber, i]);
      }
      forall k | 0 <= k < |r| && r[k].id == MakeId(FormField, [pageNumber, i])
        ensures HasFieldType(annotations[i])
      {
        MakeIdInjective(FormField, [pageNumber, at[k]], FormField, [pageNumber, i]);
        assert [pageNumber, at[k]][1] == at[k];
      }
    }
  }

  /** No two form elements of a page share an id. */
  lemma FormIdsDistinct(annotations: seq<AnnotationData>, pageNumber: nat,
                        viewportHeight: real, scale: real)
    ensures var r := FormElementsOf(annotations, pageNumber, viewportHeight, scale);
            forall a, b :: 0 <= a < b < |r| ==> r[a].id != r[b].id
  {
    var r := FormElementsOf(annotations, pageNumber, viewportHeight, scale);
    var at := Positions(annotations, HasFieldType);
    forall a, b | 0 <= a < b < |r| ensures r[a].id != r[b].id {
      MakeIdInjective(FormField, [pageNumber, at[a]], FormField, [pageNumber, at[b]]);
      assert [pageNumber, at[a]][1] != [pageNumber, at[b]][1];
    }
  }

  lemma FormElementsSnoc(annotations: seq<AnnotationData>, pageNumber: nat,
                         viewportHeight: real, scale: real, i: nat)
    requires i < |annotations|
    ensures FormElementsOf(annotations[..i + 1], pageNumber, viewportHeight, scale)
            == FormElementsOf(annotations[..i], pageNumber, viewportHeight, scale)
               + (if HasFieldType(annotations[i])
                  then [FormElementAt(annotations[i], pageNumber, i, viewportHeight, scale)] else [])
  {
    PositionsSnoc(annotations, HasFieldType, i);
  }

  /** `parseFormFields`: the annotations fetched once more, filtered on a
      truthy field type; nothing when `getAnnotations` rejects. */
  method ParseFormFields(annotations: Option<seq<AnnotationData>>, viewportHeight: real,
                         pageNumber: nat, scale: real) returns (r: seq<Element>)
    ensures annotations.None? ==> r == []
    ensures annotations.Some? ==> r == FormElementsOf(annotations.value, pageNumber, viewportHeight, scale)
  {
    var elements: seq<Element> := [];
    if annotations.Some? {
      var all := annotations.value;
      for index := 0 to |all|
        invariant elements == FormElementsOf(all[..index], pageNumber, viewportHeight, scale)
      {
        FormElementsSnoc(all, pageNumber, viewportHeight, scale, index);
        if Truthy(all[index].fieldType) {
          elements := elements + [FormElementAt(all[index], pageNumber, index, viewportHeight, scale)];
        }
      }
      assert all[..|all|] == all;
    }
    return elements;
  }
}
