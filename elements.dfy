/** The parser's inputs as pdf.js hands them over (text items, annotation data
    objects) and its output, the document element, with the id scheme
    `{kind}-{page}-{index...}` and the JavaScript value rules (`||` on strings,
    `${value}` of a missing value) the builders rely on. */
module Elements {
  import opened Wrappers
  import opened JsStrings

  function Max(a: real, b: real): real { if a >= b then a else b }
  function Abs(a: real): real { if a >= 0.0 then a else -a }

  /** A JavaScript string value is truthy when it is present and non-empty. */
  predicate Truthy(s: Option<string>) {
    s.Some? && s.value != ""
  }

  /** `s || fallback` for a possibly missing string. */
  function OrElse(s: Option<string>, fallback: string): string {
    if Truthy(s) then s.value else fallback
  }

  /** `${s}` for a possibly missing string: a missing value renders as "undefined". */
  function Interpolate(s: Option<string>): string {
    match s
    case Some(v) => v
    case None => "undefined"
  }

  /** `item.transform`, the six numbers [a, b, c, d, e, f] of the run's text
      matrix; e and f place its origin in PDF user space (origin bottom left). */
  datatype Transform = Transform(a: real, b: real, c: real, d: real, e: real, f: real)

  /** One entry of `textContent.items`. */
  datatype TextItem = TextItem(
    str: string,
    transform: Transform,
    width: real,
    height: real,
    fontName: string,
    hasEOL: bool,
    dir: string)

  /** `annotation.rect`: [x0, y0, x1, y1] in user space. */
  datatype Rect = Rect(x0: real, y0: real, x1: real, y1: real)

  /** One entry of `page.getAnnotations()`; the form-field descriptors are
      present on widget annotations only. */
  datatype AnnotationData = AnnotationData(
    rect: Rect,
    subtype: Option<string>,
    contents: Option<string>,
    title: Option<string>,
    url: Option<string>,
    dest: Option<string>,
    fieldType: Option<string>,
    fieldName: Option<string>,
    fieldValue: Option<string>,
    required: Option<bool>,
    readOnly: Option<bool>)

  /** The `type` field of an element. */
  datatype ElementType = Text | Annotation | Image | FormField {

    /** The string stored in `element.type`. */
    function Name(): string {
      match this
      case Text => "text"
      case Annotation => "annotation"
      case Image => "image"
      case FormField => "form-field"
    }

    /** The first segment of the element ids of this kind. */
    function IdPrefix(): string {
      match this
      case Text => "text"
      case Annotation => "annotation"
      case Image => "image"
      case FormField => "form"
    }

    /** Position of the kind in a page's element list. */
    function Rank(): nat {
      match this
      case Text => 0
      case Annotation => 1
      case Image => 2
      case FormField => 3
    }
  }

  /** The kind-specific fields of an element: for text the run's font,
      transform, whitespace flag and `metadata`; for annotations and form fields
      the raw annotation and `metadata`; for images `metadata`. */
  datatype Details =
    | TextDetails(
        fontFamily: string,
        transform: Transform,
        isWhitespace: bool,
        lineIndex: nat,
        itemIndex: nat,
        hasEOL: bool,
        direction: string,
        originalWidth: real,
        originalHeight: real,
        originalX: real,
        originalY: real)
    | AnnotationDetails(
        annotation: AnnotationData,
        annotationType: Option<string>,
        hasContent: bool,
        url: Option<string>,
        dest: Option<string>,
        originalRect: Rect)
    | ImageDetails(operatorIndex: nat, imageIndex: nat)
    | FormDetails(
        annotation: AnnotationData,
        fieldType: Option<string>,
        fieldName: Option<string>,
        fieldValue: Option<string>,
        required: Option<bool>,
        readOnly: Option<bool>,
        originalRect: Rect)

  /** A document element: geometry in viewport pixels at `scale`, origin top left. */
  datatype Element = Element(
    id: string,
    kind: ElementType,
    subtype: string,
    content: string,
    x: real,
    y: real,
    width: real,
    height: real,
    fontSize: Option<real>,
    pageNumber: nat,
    scale: real,
    details: Details)

  /** `${prefix}-${n0}-${n1}...`. */
  function MakeId(kind: ElementType, ns: seq<nat>): string
    requires ns != []
  {
    kind.IdPrefix() + "-" + Dashed(ns)
  }

  /** Equal ids come from the same kind and the same numbers. */
  lemma MakeIdInjective(k1: ElementType, ns: seq<nat>, k2: ElementType, ms: seq<nat>)
    requires ns != [] && ms != []
    ensures MakeId(k1, ns) == MakeId(k2, ms) ==> k1 == k2 && ns == ms
  {
    if MakeId(k1, ns) == MakeId(k2, ms) {
      var id := MakeId(k1, ns);
      assert id[0] == k1.IdPrefix()[0] == k2.IdPrefix()[0];
      var p := |k1.IdPrefix()| + 1;
      assert id[p..] == Dashed(ns);
      assert id[p..] == Dashed(ms);
      DashedInjective(ns, ms);
    }
  }
}
