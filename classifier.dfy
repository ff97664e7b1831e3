/** `classifyTextElement`: the first-match rule cascade that gives a text run
    its subtype from the run's unscaled glyph height and its trimmed string. */
module Classifier {
  import opened JsStrings

  datatype TextKind = Heading | Subheading | ListItem | Title | Symbol | Paragraph {

    /** The subtype string stored on the element. */
    function Name(): string {
      match this
      case Heading => "heading"
      case Subheading => "subheading"
      case ListItem => "list-item"
      case Title => "title"
      case Symbol => "symbol"
      case Paragraph => "paragraph"
    }
  }

  /** Heights strictly above these are headings and subheadings. */
  const HeadingHeight: real := 18.0
  const SubheadingHeight: real := 14.0

  predicate IsUpperAscii(c: char) {
    'A' <= c <= 'Z'
  }

  /** What `/^\d+\.?\s/` matches: one or more ASCII digits, an optional '.',
      then a whitespace character, at the start of the string. */
  ghost predicate MatchesListMarker(s: string) {
    exists k :: 1 <= k < |s| && AllDigits(s[..k])
      && (IsJsSpace(s[k]) || (s[k] == '.' && k + 1 < |s| && IsJsSpace(s[k + 1])))
  }

  /** The number of ASCII digits the string starts with. */
  function LeadingDigits(s: string): (n: nat)
    ensures n <= |s| && AllDigits(s[..n])
    ensures n == |s| || !IsDigit(s[n])
    decreases |s|
  {
    if s != [] && IsDigit(s[0]) then
      var n := 1 + LeadingDigits(s[1..]);
      assert s[..n] == [s[0]] + s[1..][..n - 1];
      n
    else 0
  }

  /** The regular expression `/^\d+\.?\s/` decided without backtracking: the
      greedy digit run is the only one that can be followed by '.' or a space. */
  predicate StartsWithListMarker(s: string) {
    var n := LeadingDigits(s);
    1 <= n < |s| && (IsJsSpace(s[n]) || (s[n] == '.' && n + 1 < |s| && IsJsSpace(s[n + 1])))
  }

  lemma ListMarkerMatchesRegex(s: string)
    ensures StartsWithListMarker(s) <==> MatchesListMarker(s)
  {
    var n := LeadingDigits(s);
    if MatchesListMarker(s) {
      var k :| 1 <= k < |s| && AllDigits(s[..k])
        && (IsJsSpace(s[k]) || (s[k] == '.' && k + 1 < |s| && IsJsSpace(s[k + 1])));
      forall i | 0 <= i < n ensures IsDigit(s[i]) {
        assert s[i] == s[..n][i];
      }
      forall i | 0 <= i < k ensures IsDigit(s[i]) {
        assert s[i] == s[..k][i];
      }
      assert k == n;
    }
  }

  /** What `/^[A-Z\s]+$/` matches: a non-empty string of capitals and whitespace. */
  predicate IsCapsOrSpace(s: string) {
    s != [] && forall i :: 0 <= i < |s| ==> IsUpperAscii(s[i]) || IsJsSpace(s[i])
  }

  /** The cascade; `height` is the run's unscaled `item.height`, `str` its
      untrimmed `item.str`, and each rule applies only when the earlier ones
      did not. */
  function ClassifyText(height: real, str: string): TextKind {
    var content := Trim(str);
    if height > HeadingHeight then Heading
    else if height > SubheadingHeight then Subheading
    else if StartsWithListMarker(content) then ListItem
    else if IsCapsOrSpace(content) && Utf16Length(content) > 2 then Title
    else if Utf16Length(content) < 3 then Symbol
    else Paragraph
  }

  /** Each kind is chosen exactly when its rule matches and no earlier rule
      does; the list rule is the regular expression `/^\d+\.?\s/` on the
      trimmed string. */
  lemma ClassifyTextCascade(height: real, str: string)
    ensures var r := ClassifyText(height, str);
            var content := Trim(str);
            (r == Heading <==> height > HeadingHeight)
            && (r == Subheading <==> SubheadingHeight < height <= HeadingHeight)
            && (r == ListItem <==> height <= SubheadingHeight && MatchesListMarker(content))
            && (r == Title <==> height <= SubheadingHeight && !MatchesListMarker(content)
                                && IsCapsOrSpace(content) && |content| > 2)
            && (r == Symbol <==> height <= SubheadingHeight && !MatchesListMarker(content)
                                 && !(IsCapsOrSpace(content) && |content| > 2)
                                 && Utf16Length(content) < 3)
            && (r == Paragraph <==> height <= SubheadingHeight && !MatchesListMarker(content)
                                    && !(IsCapsOrSpace(content) && |content| > 2)
                                    && Utf16Length(content) >= 3)
  {
    var content := Trim(str);
    ListMarkerMatchesRegex(content);
    CapsLength(content);
  }

  /** Capitals and whitespace all lie in the Basic Multilingual Plane, so
      `length` counts them one each. */
  lemma CapsLength(s: string)
    ensures IsCapsOrSpace(s) ==> Utf16Length(s) == |s|
  {
    if IsCapsOrSpace(s) {
      Utf16LengthBmp(s);
    }
  }

  /** A height above 18 wins over everything; exactly 18 falls through to subheading. */
  lemma HeightBoundaries(str: string)
    ensures ClassifyText(18.01, str) == Heading
    ensures ClassifyText(18.0, str) == Subheading
    ensures ClassifyText(20.0, "HELLO WORLD") == Heading
  {
  }

  /** At body height, a trimmed string with no list marker and fewer than
      three code units is a symbol. */
  lemma SymbolRule(height: real, s: string)
    requires height <= SubheadingHeight && !StartsWithListMarker(Trim(s)) && Utf16Length(Trim(s)) < 3
    ensures ClassifyText(height, s) == Symbol
  {
  }

  /** At body height, a trimmed string of three or more capitals and spaces
      with no list marker is a title. */
  lemma TitleRule(height: real, s: string)
    requires height <= SubheadingHeight && !StartsWithListMarker(Trim(s))
    requires IsCapsOrSpace(Trim(s)) && Utf16Length(Trim(s)) > 2
    ensures ClassifyText(height, s) == Title
  {
  }

  /** At body height, a trimmed string that starts with a list marker is a list item. */
  lemma ListItemRule(height: real, s: string)
    requires height <= SubheadingHeight && StartsWithListMarker(Trim(s))
    ensures ClassifyText(height, s) == ListItem
  {
  }

  /** A short string at body height is a symbol, not a paragraph. */
  lemma ShortStringIsSymbol()
    ensures ClassifyText(10.0, "AB") == Symbol
  {
    ShortStringTrimmed();
    ShortStringNoMarker();
    ShortStringLength();
    SymbolRule(10.0, "AB");
  }

  lemma ShortStringTrimmed()
    ensures Trim("AB") == "AB"
  {
    TrimmedAlready("AB");
  }

  lemma ShortStringNoMarker()
    ensures !StartsWithListMarker("AB")
  {
    NoMarker("AB");
  }

  lemma ShortStringLength()
    ensures Utf16Length("AB") == 2
  {
    CapsOf("AB");
  }

  /** A numbered line at body height is a list item. */
  lemma NumberedLineIsListItem()
    ensures ClassifyText(10.0, "3. Introduction") == ListItem
  {
    NumberedLineTrimmed();
    NumberedMarker();
    ListItemRule(10.0, "3. Introduction");
  }

  lemma NumberedLineTrimmed()
    ensures Trim("3. Introduction") == "3. Introduction"
  {
    TrimmedAlready("3. Introduction");
  }

  lemma NumberedMarker()
    ensures StartsWithListMarker("3. Introduction")
  {
    var s := "3. Introduction";
    assert LeadingDigits(s[1..]) == 0;
    assert LeadingDigits(s) == 1;
  }

  /** A string that starts with a letter carries no list marker. */
  lemma NoMarker(s: string)
    requires s != [] && !IsDigit(s[0])
    ensures !StartsWithListMarker(s)
  {
    assert LeadingDigits(s) == 0;
  }

  /** A string of capitals and spaces: one code unit per character. */
  lemma CapsOf(s: string)
    requires s != [] && forall i :: 0 <= i < |s| ==> IsUpperAscii(s[i]) || IsJsSpace(s[i])
    ensures IsCapsOrSpace(s) && Utf16Length(s) == |s|
  {
    CapsLength(s);
  }

  /** Capitals at body height are a title. */
  lemma CapitalsAreTitle()
    ensures ClassifyText(10.0, "HELLO WORLD") == Title
  {
    CapitalsTrimmed();
    CapitalsNoMarker();
    CapitalsCaps();
    TitleRule(10.0, "HELLO WORLD");
  }

  lemma CapitalsTrimmed()
    ensures Trim("HELLO WORLD") == "HELLO WORLD"
  {
    TrimmedAlready("HELLO WORLD");
  }

  lemma CapitalsNoMarker()
    ensures !StartsWithListMarker("HELLO WORLD")
  {
    NoMarker("HELLO WORLD");
  }

  lemma CapitalsCaps()
    ensures IsCapsOrSpace("HELLO WORLD") && Utf16Length("HELLO WORLD") == 11
  {
    CapsOf("HELLO WORLD");
  }
}
