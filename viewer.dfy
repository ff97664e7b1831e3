/** The state of the interactive viewer component: the parsed pages, the
    hovered element, the selection and the chat panel fed by text clicks. */
module Viewer {
  import opened Wrappers
  import opened Lists
  import opened Elements
  import opened PageParser

  // ------------------------------------------------------------ pages

  /** An entry of `pages`: the page number, the viewport height at the
      current scale and the page's elements. */
  datatype ParsedPage = ParsedPage(pageNumber: nat, viewportHeight: real, elements: seq<Element>)

  /** The entry for page `n`, or None when parsing it throws. */
  function ParsedPageAt(pdf: Document, n: nat, scale: real): Option<ParsedPage> {
    match GetPage(pdf, n)
    case None => None
    case Some(page) => Some(ParsedPage(n, ViewportHeight(page, scale), PageElements(page, n, scale)))
  }

  /** The page entries `parsePages` can produce, by page number. */
  function PageEntry(pdf: Document, scale: real): nat -> Option<ParsedPage> {
    (n: nat) => ParsedPageAt(pdf, n, scale)
  }

  /** The entries `entry` gives for pages 1..n, in page order, skipping the
      pages it gives none for. */
  function Collect(entry: nat -> Option<ParsedPage>, n: nat): seq<ParsedPage>
    decreases n
  {
    if n == 0 then []
    else Collect(entry, n - 1) + EntryRun(entry, n)
  }

  /** The entries of the pages 1..n that parse, in page order. */
  function ParsedPagesUpTo(pdf: Document, n: nat, scale: real): seq<ParsedPage> {
    Collect(PageEntry(pdf, scale), n)
  }

  function AllParsedPages(pdf: Document, scale: real): seq<ParsedPage> {
    ParsedPagesUpTo(pdf, pdf.NumPages(), scale)
  }

  /** `parsePages`: every page is parsed in turn and a page whose parse
      throws is skipped. */
  method ParsePages(pdf: Option<Document>, scale: real) returns (r: seq<ParsedPage>)
    ensures pdf.None? ==> r == []
    ensures pdf.Some? ==> r == AllParsedPages(pdf.value, scale)
  {
    if pdf.None? {
      return [];
    }
    var doc := pdf.value;
    r := [];
    for i := 1 to doc.NumPages() + 1
      invariant r == Collect(PageEntry(doc, scale), i - 1)
    {
      var run := ParsePageEntry(doc, i, scale);
      r := r + run;
    }
  }

  /** One turn of the `parsePages` loop: the entry of page n, or nothing
      when its parse throws. */
  method ParsePageEntry(pdf: Document, n: nat, scale: real) returns (run: seq<ParsedPage>)
    ensures run == EntryRun(PageEntry(pdf, scale), n)
  {
    var elements := ParsePage(pdf, n, scale);
    ParsedPageFromResult(pdf, n, scale);
    assert PageEntry(pdf, scale)(n) == ParsedPageAt(pdf, n, scale);
    run := [];
    if elements.Some? {
      var page := GetPage(pdf, n);
      run := [ParsedPage(n, ViewportHeight(page.value, scale), elements.value)];
    }
  }

  /** The entry of a page is its `parsePage` result with its number and
      viewport height. */
  lemma ParsedPageFromResult(pdf: Document, n: nat, scale: real)
    ensures PageResult(pdf, n, scale).None? ==> ParsedPageAt(pdf, n, scale).None?
    ensures PageResult(pdf, n, scale).Some? ==>
              GetPage(pdf, n).Some?
              && ParsedPageAt(pdf, n, scale)
                 == Some(ParsedPage(n, ViewportHeight(GetPage(pdf, n).value, scale), PageResult(pdf, n, scale).value))
  {
  }

  /** `entry` files every entry under its own page number. */
  ghost predicate Numbered(entry: nat -> Option<ParsedPage>) {
    forall n: nat :: entry(n).Some? ==> entry(n).value.pageNumber == n
  }

  /** `r` holds the entries of pages 1..n, each once, by increasing number. */
  predicate CollectedExactly(entry: nat -> Option<ParsedPage>, n: nat, r: seq<ParsedPage>) {
    (forall k :: 0 <= k < |r| ==> 1 <= r[k].pageNumber <= n && entry(r[k].pageNumber) == Some(r[k]))
    && (forall k, l :: 0 <= k < l < |r| ==> r[k].pageNumber < r[l].pageNumber)
    && (forall p: nat :: 1 <= p <= n && entry(p).Some? ==> exists k :: 0 <= k < |r| && r[k].pageNumber == p)
  }

  /** The entry of page n alone, as `Collect` appends it. */
  function EntryRun(entry: nat -> Option<ParsedPage>, n: nat): seq<ParsedPage> {
    match entry(n) case Some(p) => [p] case None => []
  }

  lemma EntryRunOf(entry: nat -> Option<ParsedPage>, n: nat)
    requires Numbered(entry)
    ensures forall k :: 0 <= k < |EntryRun(entry, n)| ==>
              EntryRun(entry, n)[k].pageNumber == n && entry(n) == Some(EntryRun(entry, n)[k])
    ensures entry(n).Some? ==> |EntryRun(entry, n)| == 1
  {
  }

  /** Every collected entry is one `entry` gives for a page in 1..n. */
  lemma {:induction false} CollectSound(entry: nat -> Option<ParsedPage>, n: nat)
    requires Numbered(entry)
    ensures forall k :: 0 <= k < |Collect(entry, n)| ==>
              1 <= Collect(entry, n)[k].pageNumber <= n
              && entry(Collect(entry, n)[k].pageNumber) == Some(Collect(entry, n)[k])
    decreases n
  {
    if n > 0 {
      var before := Collect(entry, n - 1);
      var last := EntryRun(entry, n);
      CollectSound(entry, n - 1);
      EntryRunOf(entry, n);
      var r := before + last;
      assert forall k :: 0 <= k < |before| ==> r[k] == before[k];
      assert forall k :: |before| <= k < |r| ==> r[k] == last[k - |before|];
    }
  }

  /** The collected entries go by increasing page number. */
  lemma {:induction false} CollectOrdered(entry: nat -> Option<ParsedPage>, n: nat)
    requires Numbered(entry)
    ensures forall k, l :: 0 <= k < l < |Collect(entry, n)| ==>
              Collect(entry, n)[k].pageNumber < Collect(entry, n)[l].pageNumber
    decreases n
  {
    if n > 0 {
      var before := Collect(entry, n - 1);
      var last := EntryRun(entry, n);
      CollectOrdered(entry, n - 1);
      CollectSound(entry, n - 1);
      EntryRunOf(entry, n);
      var r := before + last;
      assert forall k :: 0 <= k < |before| ==> r[k] == before[k] && r[k].pageNumber < n;
      assert forall k :: |before| <= k < |r| ==> r[k] == last[k - |before|] && r[k].pageNumber == n;
    }
  }

  /** Every page in 1..n with an entry is collected. */
  lemma {:induction false} CollectComplete(entry: nat -> Option<ParsedPage>, n: nat, p: nat)
    requires Numbered(entry)
    requires 1 <= p <= n && entry(p).Some?
    ensures exists k :: 0 <= k < |Collect(entry, n)| && Collect(entry, n)[k].pageNumber == p
    decreases n
  {
    var before := Collect(entry, n - 1);
    var last := EntryRun(entry, n);
    var r := before + last;
    assert r == Collect(entry, n);
    EntryRunOf(entry, n);
    if p == n {
      assert r[|before|].pageNumber == n;
    } else {
      CollectComplete(entry, n - 1, p);
      var k :| 0 <= k < |before| && before[k].pageNumber == p;
      assert r[k].pageNumber == p;
    }
  }

  lemma CollectExact(entry: nat -> Option<ParsedPage>, n: nat)
    requires Numbered(entry)
    ensures CollectedExactly(entry, n, Collect(entry, n))
  {
    CollectSound(entry, n);
    CollectOrdered(entry, n);
    forall p: nat | 1 <= p <= n && entry(p).Some?
      ensures exists k :: 0 <= k < |Collect(entry, n)| && Collect(entry, n)[k].pageNumber == p
    {
      CollectComplete(entry, n, p);
    }
  }

  /** A page has an entry exactly when `parsePage` resolves for it, and the
      entry carries its number. */
  lemma PageEntryIsParse(pdf: Document, scale: real)
    ensures Numbered(PageEntry(pdf, scale))
    ensures forall n: nat :: PageEntry(pdf, scale)(n).Some? <==> PageResult(pdf, n, scale).Some?
  {
  }

  /** The entries are the pages that parse, each once, by increasing number. */
  predicate ExactlyTheParsablePages(pdf: Document, n: nat, scale: real, r: seq<ParsedPage>) {
    (forall k :: 0 <= k < |r| ==> 1 <= r[k].pageNumber <= n
                                   && ParsedPageAt(pdf, r[k].pageNumber, scale) == Some(r[k]))
    && (forall k, l :: 0 <= k < l < |r| ==> r[k].pageNumber < r[l].pageNumber)
    && (forall p :: 1 <= p <= n && PageResult(pdf, p, scale).Some? ==>
          exists k :: 0 <= k < |r| && r[k].pageNumber == p)
  }

  /** The loaded pages are exactly the document's pages that parse, in order. */
  lemma LoadedPagesAreTheParsablePages(pdf: Document, scale: real)
    ensures ExactlyTheParsablePages(pdf, pdf.NumPages(), scale, AllParsedPages(pdf, scale))
  {
    var entry := PageEntry(pdf, scale);
    var r := AllParsedPages(pdf, scale);
    PageEntryIsParse(pdf, scale);
    CollectExact(entry, pdf.NumPages());
    assert r == Collect(entry, pdf.NumPages());
    forall k | 0 <= k < |r| ensures ParsedPageAt(pdf, r[k].pageNumber, scale) == Some(r[k]) {
      assert entry(r[k].pageNumber) == Some(r[k]);
    }
    forall p | 1 <= p <= pdf.NumPages() && PageResult(pdf, p, scale).Some?
      ensures exists k :: 0 <= k < |r| && r[k].pageNumber == p
    {
      assert entry(p).Some?;
    }
  }

  // ------------------------------------------------------------ selection and chat

  /** A chat panel entry, without its clock-derived id and timestamp. */
  datatype ChatMessage = ChatMessage(elementId: string, text: string, kind: string, pageNumber: nat)

  /** The message a text click adds: the element's content, typed by its
      subtype or else "text". */
  function MessageFor(e: Element): (m: ChatMessage)
    ensures m.elementId == e.id && m.text == e.content && m.pageNumber == e.pageNumber
    ensures m.kind != "" && (e.subtype != "" ==> m.kind == e.subtype)
    ensures e.subtype == "" ==> m.kind == "text"
  {
    ChatMessage(e.id, e.content, if e.subtype != "" then e.subtype else "text", e.pageNumber)
  }

  /** `selectedElements.find(el => el.id === id)` finds an element. */
  predicate Selected(selection: seq<Element>, id: string) {
    exists i :: 0 <= i < |selection| && selection[i].id == id
  }

  function HasOtherId(id: string): Element -> bool {
    (el: Element) => el.id != id
  }

  function AboutOther(id: string): ChatMessage -> bool {
    (m: ChatMessage) => m.elementId != id
  }

  /** The selection after a click on `e`: deselected if an element with its
      id was selected, appended otherwise. */
  function SelectionAfterClick(selection: seq<Element>, e: Element): seq<Element> {
    if Selected(selection, e.id) then Filter(selection, HasOtherId(e.id)) else selection + [e]
  }

  /** The chat messages after a click on `e`: a deselect drops the messages
      about it, a text select adds one. */
  function ChatAfterClick(selection: seq<Element>, messages: seq<ChatMessage>, e: Element): seq<ChatMessage> {
    if Selected(selection, e.id) then Filter(messages, AboutOther(e.id))
    else if e.kind == Text then messages + [MessageFor(e)]
    else messages
  }

  /** The panel's visibility after a click: a text select shows it. */
  function VisibleAfterClick(selection: seq<Element>, visible: bool, e: Element): bool {
    if !Selected(selection, e.id) && e.kind == Text then true else visible
  }

  /** A click toggles whether an element with that id is selected. */
  lemma ClickToggles(selection: seq<Element>, e: Element)
    ensures Selected(SelectionAfterClick(selection, e), e.id) <==> !Selected(selection, e.id)
  {
    var after := SelectionAfterClick(selection, e);
    if !Selected(selection, e.id) {
      assert after[|selection|] == e;
    }
  }

  /** A click changes nothing about the other selected elements: a deselect
      keeps them in order, a select puts the element after them. */
  lemma ClickKeepsOthers(selection: seq<Element>, e: Element)
    ensures Filter(SelectionAfterClick(selection, e), HasOtherId(e.id)) == Filter(selection, HasOtherId(e.id))
  {
    if Selected(selection, e.id) {
      FilterKeepsAll(Filter(selection, HasOtherId(e.id)), HasOtherId(e.id));
    } else {
      FilterSnoc(selection, e, HasOtherId(e.id));
    }
  }

  /** A selection never holds two elements with the same id. */
  lemma ClickKeepsIdsDistinct(selection: seq<Element>, e: Element)
    requires IdsDistinct(selection)
    ensures IdsDistinct(SelectionAfterClick(selection, e))
  {
    if Selected(selection, e.id) {
      FilteredIdsDistinct(selection, HasOtherId(e.id));
    } else {
      var after := selection + [e];
      forall i, j | 0 <= i < j < |after| ensures after[i].id != after[j].id {
        if j == |selection| {
          assert after[i] == selection[i];
        }
      }
    }
  }

  lemma {:induction false} FilteredIdsDistinct(selection: seq<Element>, keep: Element -> bool)
    requires IdsDistinct(selection)
    ensures IdsDistinct(Filter(selection, keep))
    decreases |selection|
  {
    if selection != [] {
      var rest := Filter(selection[1..], keep);
      FilteredIdsDistinct(selection[1..], keep);
      if keep(selection[0]) {
        var r := [selection[0]] + rest;
        forall j | 0 < j < |r| ensures r[0].id != r[j].id {
          assert r[j] in selection[1..];
        }
      }
    }
  }

  /** Selecting an element that was not selected and clicking it again
      restores the selection. */
  lemma SelectThenDeselectRestoresSelection(selection: seq<Element>, e: Element)
    requires !Selected(selection, e.id)
    ensures SelectionAfterClick(SelectionAfterClick(selection, e), e) == selection
  {
    var once := selection + [e];
    assert once[|selection|] == e;
    FilterSnoc(selection, e, HasOtherId(e.id));
    FilterKeepsAll(selection, HasOtherId(e.id));
  }

  /** With no message about the element before, the round trip also
      restores the chat messages. */
  lemma SelectThenDeselectRestoresChat(selection: seq<Element>, messages: seq<ChatMessage>, e: Element)
    requires !Selected(selection, e.id)
    requires forall i :: 0 <= i < |messages| ==> messages[i].elementId != e.id
    ensures ChatAfterClick(SelectionAfterClick(selection, e), ChatAfterClick(selection, messages, e), e) == messages
  {
    var once := selection + [e];
    assert once[|selection|] == e;
    FilterKeepsAll(messages, AboutOther(e.id));
    if e.kind == Text {
      FilterSnoc(messages, MessageFor(e), AboutOther(e.id));
    }
  }

  /** A deselect leaves no message about the element. */
  lemma DeselectDropsMessages(selection: seq<Element>, messages: seq<ChatMessage>, e: Element)
    requires Selected(selection, e.id)
    ensures var after := ChatAfterClick(selection, messages, e);
            forall i :: 0 <= i < |after| ==> after[i].elementId != e.id
  {
  }

  /** Only a select of a text element adds a message, and then exactly one. */
  lemma ChatGrowsOnlyOnTextSelect(selection: seq<Element>, messages: seq<ChatMessage>, e: Element)
    ensures |ChatAfterClick(selection, messages, e)| > |messages| <==> !Selected(selection, e.id) && e.kind == Text
    ensures !Selected(selection, e.id) && e.kind == Text ==>
              ChatAfterClick(selection, messages, e) == messages + [MessageFor(e)]
  {
  }

  /** The effect that hides an empty chat panel. */
  function VisibleAfterEffect(messages: seq<ChatMessage>, visible: bool): (v: bool)
    ensures v <==> visible && messages != []
  {
    if |messages| == 0 && visible then false else visible
  }

  /** Deselecting the element behind the only messages left closes the panel
      once the effect has run. */
  lemma DeselectingLastMessageHidesChat(selection: seq<Element>, messages: seq<ChatMessage>, visible: bool, e: Element)
    requires Selected(selection, e.id)
    requires forall i :: 0 <= i < |messages| ==> messages[i].elementId == e.id
    ensures !VisibleAfterEffect(ChatAfterClick(selection, messages, e), VisibleAfterClick(selection, visible, e))
  {
    FilterDropsAll(messages, AboutOther(e.id));
  }

  /** The component's state. */
  class ViewerState {
    var pdf: Option<Document>
    var pages: seq<ParsedPage>
    var hoveredElement: Option<Element>
    var selectedElements: seq<Element>
    var chatVisible: bool
    var chatMessages: seq<ChatMessage>

    predicate Valid()
      reads this
    {
      IdsDistinct(selectedElements)
    }

    constructor()
      ensures pdf == None && pages == [] && hoveredElement == None
      ensures selectedElements == [] && chatMessages == [] && !chatVisible
      ensures Valid()
    {
      pdf := None;
      pages := [];
      hoveredElement := None;
      selectedElements := [];
      chatVisible := false;
      chatMessages := [];
    }

    /** The load effect: a document that opens replaces `pdf` and its pages
      are parsed at the current scale; a document that fails to open
      changes nothing. */
    method LoadPdf(doc: Option<Document>, scale: real)
      modifies this
      ensures doc.None? ==> pdf == old(pdf) && pages == old(pages)
      ensures doc.Some? ==> pdf == doc && pages == AllParsedPages(doc.value, scale)
      ensures hoveredElement == old(hoveredElement) && selectedElements == old(selectedElements)
      ensures chatVisible == old(chatVisible) && chatMessages == old(chatMessages)
    {
      if doc.Some? {
        pdf := doc;
        pages := ParsePages(doc, scale);
      }
    }

    /** The scale effect: once pages are loaded they are parsed again at the
      new scale, and the selection and the hover are dropped, since their
      positions have changed. The chat panel is left as it is. */
    method UpdateScale(scale: real)
      requires Valid()
      modifies this
      ensures old(pdf.Some? && |pages| > 0) ==>
                pages == AllParsedPages(old(pdf).value, scale) && selectedElements == [] && hoveredElement == None
      ensures !old(pdf.Some? && |pages| > 0) ==>
                pages == old(pages) && selectedElements == old(selectedElements) && hoveredElement == old(hoveredElement)
      ensures pdf == old(pdf) && chatVisible == old(chatVisible) && chatMessages == old(chatMessages)
      ensures Valid()
    {
      if pdf.Some? && |pages| > 0 {
        pages := ParsePages(pdf, scale);
        selectedElements := [];
        hoveredElement := None;
      }
    }

    method Hover(e: Element)
      modifies this
      ensures hoveredElement == Some(e)
      ensures pdf == old(pdf) && pages == old(pages) && selectedElements == old(selectedElements)
      ensures chatVisible == old(chatVisible) && chatMessages == old(chatMessages)
    {
      hoveredElement := Some(e);
    }

    method Unhover()
      modifies this
      ensures hoveredElement == None
      ensures pdf == old(pdf) && pages == old(pages) && selectedElements == old(selectedElements)
      ensures chatVisible == old(chatVisible) && chatMessages == old(chatMessages)
    {
      hoveredElement := None;
    }

    /** `handleElementClick`: toggles the selection; a deselect also drops
      the element's messages and returns early, a select of a text element
      goes on to `handleTextElementClick`. */
    method HandleElementClick(e: Element)
      requires Valid()
      modifies this
      ensures selectedElements == SelectionAfterClick(old(selectedElements), e)
      ensures chatMessages == ChatAfterClick(old(selectedElements), old(chatMessages), e)
      ensures chatVisible == VisibleAfterClick(old(selectedElements), old(chatVisible), e)
      ensures pdf == old(pdf) && pages == old(pages) && hoveredElement == old(hoveredElement)
      ensures Valid()
    {
      ClickKeepsIdsDistinct(selectedElements, e);
      if Selected(selectedElements, e.id) {
        selectedElements := Filter(selectedElements, HasOtherId(e.id));
        chatMessages := Filter(chatMessages, AboutOther(e.id));
        return;
      }
      selectedElements := selectedElements + [e];
      if e.kind == Text {
        HandleTextElementClick(e);
      }
    }

    /** `handleTextElementClick`: posts the element's text to the chat and
      shows the panel. */
    method HandleTextElementClick(e: Element)
      modifies this
      ensures chatMessages == old(chatMessages) + [MessageFor(e)] && chatVisible
      ensures pdf == old(pdf) && pages == old(pages) && hoveredElement == old(hoveredElement)
      ensures selectedElements == old(selectedElements)
    {
      chatMessages := chatMessages + [MessageFor(e)];
      chatVisible := true;
    }

    /** The auto-hide effect. */
    method HideEmptyChat()
      modifies this
      ensures chatVisible == VisibleAfterEffect(old(chatMessages), old(chatVisible))
      ensures chatVisible ==> chatMessages != []
      ensures pdf == old(pdf) && pages == old(pages) && hoveredElement == old(hoveredElement)
      ensures selectedElements == old(selectedElements) && chatMessages == old(chatMessages)
    {
      if |chatMessages| == 0 && chatVisible {
        chatVisible := false;
      }
    }

    /** The "Clear Selection" button. */
    method ClearSelection()
      modifies this
      ensures selectedElements == [] && chatMessages == [] && !chatVisible
      ensures pdf == old(pdf) && pages == old(pages) && hoveredElement == old(hoveredElement)
      ensures Valid()
    {
      selectedElements := [];
      chatMessages := [];
      chatVisible := false;
    }

    /** `clearChatMessages`: empties the chat only. */
    method ClearChatMessages()
      modifies this
      ensures chatMessages == []
      ensures pdf == old(pdf) && pages == old(pages) && hoveredElement == old(hoveredElement)
      ensures selectedElements == old(selectedElements) && chatVisible == old(chatVisible)
    {
      chatMessages := [];
    }

    /** The chat panel's close button. */
    method CloseChat()
      modifies this
      ensures !chatVisible
      ensures pdf == old(pdf) && pages == old(pages) && hoveredElement == old(hoveredElement)
      ensures selectedElements == old(selectedElements) && chatMessages == old(chatMessages)
    {
      chatVisible := false;
    }
  }
}
