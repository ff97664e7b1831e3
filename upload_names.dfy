/** The string helpers of the library page's upload handler: the storage-safe
    file name, the storage object path and the book title taken from the
    uploaded file's name. */
module UploadNames {
  import opened Lists
  import opened JsStrings

  /** A member of the character class `[a-zA-Z0-9_.-]`. */
  predicate IsSafe(c: char) {
    'a' <= c <= 'z' || 'A' <= c <= 'Z' || '0' <= c <= '9' || c == '_' || c == '.' || c == '-'
  }

  predicate AllSafe(s: string) {
    forall i :: 0 <= i < |s| ==> IsSafe(s[i])
  }

  /** The same class tested on one UTF-16 code unit. */
  predicate IsSafeUnit(u: int) {
    'a' as int <= u <= 'z' as int || 'A' as int <= u <= 'Z' as int || '0' as int <= u <= '9' as int
    || u == '_' as int || u == '.' as int || u == '-' as int
  }

  /** What the global replace does to one code unit: a unit outside the
      class becomes '_'. */
  function SanitizeUnit(u: int): int {
    if IsSafeUnit(u) then u else '_' as int
  }

  /** The replacement of one character. The pattern has no `u` flag, so it
      matches code units: a character outside the Basic Multilingual Plane is
      two units and becomes two underscores. */
  function SanitizeChar(c: char): string {
    if IsSafe(c) then [c] else if c as int > 0xFFFF then "__" else "_"
  }

  /** `file.name.replace(/[^a-zA-Z0-9_.-]/g, '_')`. */
  function Sanitize(name: string): (r: string)
    ensures AllSafe(r)
    decreases |name|
  {
    if name == [] then [] else SanitizeChar(name[0]) + Sanitize(name[1..])
  }

  lemma {:induction false} SanitizeAppend(a: string, b: string)
    ensures Sanitize(a + b) == Sanitize(a) + Sanitize(b)
    decreases |a|
  {
    if a == [] {
      assert a + b == b;
    } else {
      assert (a + b)[0] == a[0];
      assert (a + b)[1..] == a[1..] + b;
      assert Sanitize(a + b) == SanitizeChar(a[0]) + Sanitize(a[1..] + b);
      SanitizeAppend(a[1..], b);
      var h := SanitizeChar(a[0]);
      assert h + (Sanitize(a[1..]) + Sanitize(b)) == (h + Sanitize(a[1..])) + Sanitize(b);
    }
  }

  lemma SanitizeCharUnits(c: char)
    ensures Utf16Units(SanitizeChar(c)) == Map(Utf16Units([c]), SanitizeUnit)
  {
    assert [c][1..] == [];
    if IsSafe(c) {
      assert IsSafeUnit(c as int);
    } else if c as int > 0xFFFF {
      var hi, lo := 0xD800 + (c as int - 0x10000) / 0x400, 0xDC00 + (c as int - 0x10000) % 0x400;
      assert Utf16Units([c]) == [hi, lo];
      assert !IsSafeUnit(hi) && !IsSafeUnit(lo);
      assert "__"[1..] == "_";
    }
  }

  /** The sanitised name, read as code units, is the original's code units
      each passed through the replacement: the regex works unit by unit. */
  lemma {:induction false} SanitizeActsOnCodeUnits(name: string)
    ensures Utf16Units(Sanitize(name)) == Map(Utf16Units(name), SanitizeUnit)
    decreases |name|
  {
    if name != [] {
      SanitizeActsOnCodeUnits(name[1..]);
      SanitizeCharUnits(name[0]);
      Utf16UnitsAppend(SanitizeChar(name[0]), Sanitize(name[1..]));
      assert name == [name[0]] + name[1..];
      Utf16UnitsAppend([name[0]], name[1..]);
      MapAppend(Utf16Units([name[0]]), Utf16Units(name[1..]), SanitizeUnit);
    }
  }

  /** The sanitised name is exactly as long as the original, in code units,
      and every code unit the class admits stays where it was. */
  lemma SanitizeKeepsLayout(name: string)
    ensures Utf16Length(Sanitize(name)) == Utf16Length(name)
    ensures var before, after := Utf16Units(name), Utf16Units(Sanitize(name));
            forall i :: 0 <= i < |before| ==> after[i] == (if IsSafeUnit(before[i]) then before[i] else '_' as int)
  {
    SanitizeActsOnCodeUnits(name);
  }

  /** A name made of the class's characters only is left as it is. */
  lemma {:induction false} SanitizeFixesSafe(name: string)
    requires AllSafe(name)
    ensures Sanitize(name) == name
    decreases |name|
  {
    if name != [] {
      SanitizeFixesSafe(name[1..]);
      assert name == [name[0]] + name[1..];
    }
  }

  /** Sanitising twice is sanitising once. */
  lemma SanitizeIdempotent(name: string)
    ensures Sanitize(Sanitize(name)) == Sanitize(name)
  {
    SanitizeFixesSafe(Sanitize(name));
  }

  /** `${user.id}/${Date.now()}_${sanitizedFileName}`, with the clock reading
      passed in. */
  function StoragePath(userId: string, timestamp: nat, name: string): (r: string)
    ensures |r| > |userId| + 1 && r[..|userId|] == userId && r[|userId|] == '/'
    ensures r[|userId| + 1..] == NatToString(timestamp) + "_" + Sanitize(name)
  {
    userId + "/" + NatToString(timestamp) + "_" + Sanitize(name)
  }

  /** Below the user's folder the object name uses only the safe class. */
  lemma StoragePathObjectSafe(userId: string, timestamp: nat, name: string)
    ensures AllSafe(StoragePath(userId, timestamp, name)[|userId| + 1..])
  {
    var digits := NatToString(timestamp);
    var rest := StoragePath(userId, timestamp, name)[|userId| + 1..];
    assert rest == digits + "_" + Sanitize(name);
    forall i | 0 <= i < |rest| ensures IsSafe(rest[i]) {
      if i < |digits| {
        assert rest[i] == digits[i];
      } else if i > |digits| {
        assert rest[i] == Sanitize(name)[i - |digits| - 1];
      }
    }
  }

  /** A string cut at the first occurrence of a separator it has on one side only. */
  lemma SplitAtFirst(a: string, sep: char, b: string, c: string, d: string)
    requires sep !in a && sep !in c
    requires a + [sep] + b == c + [sep] + d
    ensures a == c && b == d
  {
    var s := a + [sep] + b;
    assert s == c + [sep] + d;
    assert s[|a|] == sep && s[|c|] == sep;
    assert forall i :: 0 <= i < |a| ==> s[i] == a[i] && s[i] != sep;
    assert forall i :: 0 <= i < |c| ==> s[i] == c[i] && s[i] != sep;
    assert |a| == |c|;
    assert a == s[..|a|] == c;
    assert b == s[|a| + 1..] == d;
  }

  /** For user ids without '/', distinct uploads whose paths coincide have the
      same user, the same timestamp and the same sanitised name. */
  lemma StoragePathDetermines(u1: string, t1: nat, n1: string, u2: string, t2: nat, n2: string)
    requires '/' !in u1 && '/' !in u2
    requires StoragePath(u1, t1, n1) == StoragePath(u2, t2, n2)
    ensures u1 == u2 && t1 == t2 && Sanitize(n1) == Sanitize(n2)
  {
    var d1, d2 := NatToString(t1), NatToString(t2);
    PathParts(u1, t1, n1);
    PathParts(u2, t2, n2);
    SplitAtFirst(u1, '/', d1 + "_" + Sanitize(n1), u2, d2 + "_" + Sanitize(n2));
    DigitsHaveNoUnderscore(t1);
    DigitsHaveNoUnderscore(t2);
    SplitAtFirst(d1, '_', Sanitize(n1), d2, Sanitize(n2));
    NatToStringInjective(t1, t2);
  }

  lemma PathParts(userId: string, timestamp: nat, name: string)
    ensures StoragePath(userId, timestamp, name)
            == userId + ['/'] + (NatToString(timestamp) + "_" + Sanitize(name))
  {
  }

  lemma DigitsHaveNoUnderscore(n: nat)
    ensures '_' !in NatToString(n)
  {
    var d := NatToString(n);
    assert forall i :: 0 <= i < |d| ==> IsDigit(d[i]);
  }


  /** Case-insensitive equality of a character with a lower-case ASCII letter. */
  predicate MatchesIgnoringCase(c: char, lower: char)
    requires 'a' <= lower <= 'z'
  {
    c == lower || c as int == lower as int - 32
  }

  /** The name ends with ".pdf" in any mix of cases. */
  predicate HasPdfSuffix(name: string) {
    |name| >= 4 && name[|name| - 4] == '.'
    && MatchesIgnoringCase(name[|name| - 3], 'p')
    && MatchesIgnoringCase(name[|name| - 2], 'd')
    && MatchesIgnoringCase(name[|name| - 1], 'f')
  }

  /** `file.name.replace(/\.pdf$/i, '')`. */
  function PdfTitle(name: string): (r: string)
    ensures HasPdfSuffix(name) ==> |r| == |name| - 4 && name == r + name[|name| - 4..]
    ensures !HasPdfSuffix(name) ==> r == name
  {
    if HasPdfSuffix(name) then name[..|name| - 4] else name
  }

  /** Appending a ".pdf" extension, in any case, and taking the title gives
      back the stem, even when the stem itself ends in ".pdf": exactly one
      extension is removed. */
  lemma TitleOfPdfName(stem: string, ext: string)
    requires HasPdfSuffix(ext) && |ext| == 4
    ensures PdfTitle(stem + ext) == stem
  {
    var name := stem + ext;
    assert name[|name| - 4..] == ext;
    assert name[..|name| - 4] == stem;
  }

  lemma TitleExamples()
    ensures PdfTitle("notes.PDF") == "notes"
    ensures PdfTitle("a.pdf.pdf") == "a.pdf"
    ensures PdfTitle("scan.pdfx") == "scan.pdfx"
  {
    TitleOfPdfName("notes", ".PDF");
    TitleOfPdfName("a.pdf", ".pdf");
    assert !HasPdfSuffix("scan.pdfx");
  }
}
