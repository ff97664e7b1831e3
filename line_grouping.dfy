/** `groupTextIntoLines`: partitions the page's text items, in stream order,
    into visual lines by vertical proximity of consecutive baselines. */
module LineGrouping {
  import opened Lists
  import opened Elements

  /** The tolerance floor, in user-space units. */
  const LineTolerance: real := 2.0

  /** Whether `item` opens a new line after `prev`: its baseline lies further
      from `prev`'s than max(0.3 × item height, 2). */
  predicate StartsNewLine(prev: TextItem, item: TextItem) {
    Abs(item.transform.f - prev.transform.f) > Max(item.height * 0.3, LineTolerance)
  }

  /** The lines of `items`: each item joins the line of the item before it,
      unless it starts a new line. */
  function LinesOf(items: seq<TextItem>): (lines: seq<seq<TextItem>>)
    ensures (lines == []) == (items == [])
    decreases |items|
  {
    if items == [] then []
    else
      var rest, item := items[..|items| - 1], items[|items| - 1];
      var done := LinesOf(rest);
      if rest == [] || StartsNewLine(Last(rest), item) then done + [[item]]
      else done[..|done| - 1] + [Last(done) + [item]]
  }

  predicate NoEmptyLine(lines: seq<seq<TextItem>>) {
    forall k :: 0 <= k < |lines| ==> lines[k] != []
  }

  /** Line `k` starts with an item that starts a new line after the last item of line `k - 1`. */
  predicate OpensLine(lines: seq<seq<TextItem>>, k: int) {
    0 < k < |lines| && lines[k - 1] != [] && lines[k] != []
    && StartsNewLine(Last(lines[k - 1]), lines[k][0])
  }

  /** Item `j` of a line stays on the line of the item before it. */
  predicate Continues(line: seq<TextItem>, j: int) {
    0 < j < |line| && !StartsNewLine(line[j - 1], line[j])
  }

  predicate BreaksBetween(lines: seq<seq<TextItem>>) {
    forall k {:trigger OpensLine(lines, k)} :: 0 < k < |lines| ==> OpensLine(lines, k)
  }

  predicate NoBreakWithin(lines: seq<seq<TextItem>>) {
    forall k, j {:trigger Continues(lines[k], j)} :: 0 <= k < |lines| && 0 < j < |lines[k]| ==> Continues(lines[k], j)
  }

  /** A grouping of `items` into lines: the lines, concatenated, are the items
      in their original order; no line is empty; an item opens a line other
      than the first exactly when it starts a new line after the item before it. */
  predicate IsLineGrouping(items: seq<TextItem>, lines: seq<seq<TextItem>>) {
    Flatten(lines) == items && NoEmptyLine(lines) && BreaksBetween(lines) && NoBreakWithin(lines)
  }

  /** An item that starts a new line opens one. */
  lemma GroupingNewLine(rest: seq<TextItem>, done: seq<seq<TextItem>>, item: TextItem)
    requires IsLineGrouping(rest, done)
    requires rest == [] || StartsNewLine(Last(rest), item)
    ensures IsLineGrouping(rest + [item], done + [[item]])
  {
    var lines := done + [[item]];
    FlattenSnoc(done, [item]);
    assert NoEmptyLine(lines);
    if done != [] {
      FlattenLast(done);
    }
    assert BreaksBetween(lines) by {
      forall k | 0 < k < |lines| ensures OpensLine(lines, k) {
        if k < |done| {
          assert lines[k - 1] == done[k - 1] && lines[k] == done[k];
          assert OpensLine(done, k);
        }
      }
    }
    assert NoBreakWithin(lines) by {
      forall k, j | 0 <= k < |lines| && 0 < j < |lines[k]|
        ensures Continues(lines[k], j)
      {
        assert lines[k] == done[k];
        assert Continues(done[k], j);
      }
    }
  }

  /** Any other item joins the last line. */
  lemma GroupingSameLine(rest: seq<TextItem>, done: seq<seq<TextItem>>, item: TextItem)
    requires IsLineGrouping(rest, done)
    requires rest != [] && !StartsNewLine(Last(rest), item)
    ensures done != [] && IsLineGrouping(rest + [item], done[..|done| - 1] + [Last(done) + [item]])
  {
    var m := |done|;
    var init := done[..m - 1];
    var lines := init + [Last(done) + [item]];
    assert done == init + [Last(done)];
    FlattenSnoc(init, Last(done));
    FlattenSnoc(init, Last(done) + [item]);
    FlattenLast(done);
    assert NoEmptyLine(lines);
    assert BreaksBetween(lines) by {
      forall k | 0 < k < |lines| ensures OpensLine(lines, k) {
        assert lines[k - 1] == done[k - 1] && lines[k][0] == done[k][0];
        assert OpensLine(done, k);
      }
    }
    assert NoBreakWithin(lines) by {
      forall k, j | 0 <= k < |lines| && 0 < j < |lines[k]|
        ensures Continues(lines[k], j)
      {
        if k < m - 1 || j < |Last(done)| {
          assert lines[k][j - 1] == done[k][j - 1] && lines[k][j] == done[k][j];
          assert Continues(done[k], j);
        }
      }
    }
  }

  lemma {:induction false} LinesOfIsLineGrouping(items: seq<TextItem>)
    ensures IsLineGrouping(items, LinesOf(items))
    decreases |items|
  {
    if items != [] {
      var rest, item := items[..|items| - 1], items[|items| - 1];
      assert items == rest + [item];
      LinesOfIsLineGrouping(rest);
      if rest == [] || StartsNewLine(Last(rest), item) {
        GroupingNewLine(rest, LinesOf(rest), item);
      } else {
        GroupingSameLine(rest, LinesOf(rest), item);
      }
    }
  }

  /** Removing the last item from a grouping whose last line holds only that item. */
  lemma DropLastLine(items: seq<TextItem>, lines: seq<seq<TextItem>>)
    requires IsLineGrouping(items, lines) && lines != [] && |Last(lines)| == 1
    ensures items != [] && Last(lines) == [Last(items)]
    ensures IsLineGrouping(items[..|items| - 1], lines[..|lines| - 1])
    ensures items[..|items| - 1] != [] ==> StartsNewLine(Last(items[..|items| - 1]), Last(items))
  {
    var m := |lines|;
    var init := lines[..m - 1];
    assert lines == init + [Last(lines)];
    FlattenSnoc(init, Last(lines));
    assert Flatten(init) == items[..|items| - 1];
    assert NoEmptyLine(init);
    assert BreaksBetween(init) by {
      forall k | 0 < k < |init| ensures OpensLine(init, k) {
        assert init[k - 1] == lines[k - 1] && init[k] == lines[k];
        assert OpensLine(lines, k);
      }
    }
    assert NoBreakWithin(init) by {
      forall k, j | 0 <= k < |init| && 0 < j < |init[k]|
        ensures Continues(init[k], j)
      {
        assert init[k] == lines[k];
        assert Continues(lines[k], j);
      }
    }
    if init != [] {
      FlattenLast(init);
      assert OpensLine(lines, m - 1);
    }
  }

  /** Removing the last item from a grouping whose last line holds more. */
  lemma ShortenLastLine(items: seq<TextItem>, lines: seq<seq<TextItem>>)
    requires IsLineGrouping(items, lines) && lines != [] && |Last(lines)| > 1
    ensures var last := Last(lines);
            IsLineGrouping(items[..|items| - 1], lines[..|lines| - 1] + [last[..|last| - 1]])
    ensures items[..|items| - 1] != [] && !StartsNewLine(Last(items[..|items| - 1]), Last(items))
    ensures Last(Last(lines)) == Last(items)
  {
    var m := |lines|;
    var init, last := lines[..m - 1], Last(lines);
    var shorter := last[..|last| - 1];
    var lines' := init + [shorter];
    assert lines == init + [last];
    assert last == shorter + [Last(last)];
    FlattenSnoc(init, last);
    FlattenSnoc(init, shorter);
    assert Flatten(lines') == items[..|items| - 1];
    assert NoEmptyLine(lines');
    assert BreaksBetween(lines') by {
      forall k | 0 < k < |lines'| ensures OpensLine(lines', k) {
        assert lines'[k - 1] == lines[k - 1] && lines'[k][0] == lines[k][0];
        assert OpensLine(lines, k);
      }
    }
    assert NoBreakWithin(lines') by {
      forall k, j | 0 <= k < |lines'| && 0 < j < |lines'[k]|
        ensures Continues(lines'[k], j)
      {
        assert lines'[k][j - 1] == lines[k][j - 1] && lines'[k][j] == lines[k][j];
        assert Continues(lines[k], j);
      }
    }
    FlattenLast(lines');
    assert Continues(lines[m - 1], |last| - 1);
  }

  /** One step of `LinesOf`: the last item opens a line or joins the last one. */
  lemma LinesOfStep(items: seq<TextItem>)
    requires items != []
    ensures var rest, item := items[..|items| - 1], items[|items| - 1];
            var done := LinesOf(rest);
            LinesOf(items) == if rest == [] || StartsNewLine(Last(rest), item) then done + [[item]]
                              else done[..|done| - 1] + [Last(done) + [item]]
  {
  }

  /** Only one grouping has those properties, so they pin `LinesOf` down. */
  lemma {:induction false} LineGroupingUnique(items: seq<TextItem>, lines: seq<seq<TextItem>>)
    requires IsLineGrouping(items, lines)
    ensures lines == LinesOf(items)
    decreases |items|
  {
    if lines != [] {
      var m := |lines|;
      var last := Last(lines);
      if |last| == 1 {
        DropLastLine(items, lines);
        LineGroupingUnique(items[..|items| - 1], lines[..m - 1]);
        NewLineStep(items, lines);
      } else {
        ShortenLastLine(items, lines);
        var lines' := lines[..m - 1] + [last[..|last| - 1]];
        LineGroupingUnique(items[..|items| - 1], lines');
        SameLineStep(items, lines, lines');
      }
    }
  }

  lemma NewLineStep(items: seq<TextItem>, lines: seq<seq<TextItem>>)
    requires items != [] && lines != [] && Last(lines) == [Last(items)]
    requires lines[..|lines| - 1] == LinesOf(items[..|items| - 1])
    requires items[..|items| - 1] != [] ==> StartsNewLine(Last(items[..|items| - 1]), Last(items))
    ensures lines == LinesOf(items)
  {
    LinesOfStep(items);
    SplitLast(lines);
  }

  lemma SameLineStep(items: seq<TextItem>, lines: seq<seq<TextItem>>, lines': seq<seq<TextItem>>)
    requires items != [] && lines != [] && |Last(lines)| > 1 && Last(Last(lines)) == Last(items)
    requires lines' == lines[..|lines| - 1] + [Last(lines)[..|Last(lines)| - 1]]
    requires lines' == LinesOf(items[..|items| - 1])
    requires items[..|items| - 1] != [] && !StartsNewLine(Last(items[..|items| - 1]), Last(items))
    ensures lines == LinesOf(items)
  {
    LinesOfStep(items);
    JoinLast(lines, lines', items[|items| - 1]);
  }

  /** Putting back the last item of the last line. */
  lemma JoinLast<T>(lines: seq<seq<T>>, lines': seq<seq<T>>, item: T)
    requires lines != [] && |Last(lines)| > 1 && Last(Last(lines)) == item
    requires lines' == lines[..|lines| - 1] + [Last(lines)[..|Last(lines)| - 1]]
    ensures lines == lines'[..|lines'| - 1] + [lines'[|lines'| - 1] + [item]]
  {
    var m := |lines|;
    var init, last := lines[..m - 1], lines[m - 1];
    var shorter := last[..|last| - 1];
    SplitLast(lines);
    SplitLast(last);
    assert lines'[..m - 1] == init;
    assert lines'[m - 1] == shorter;
  }

  /** The loop of `groupTextIntoLines`: `lastY` remembers the baseline of the
      previous item, and the current line is flushed when an item starts a new
      line and once more at the end. */
  method GroupTextIntoLines(items: seq<TextItem>) returns (lines: seq<seq<TextItem>>)
    ensures lines == LinesOf(items)
  {
    lines := [];
    var currentLine: seq<TextItem> := [];
    var lastY: real := 0.0;
    var hasLastY := false;
    for i := 0 to |items|
      invariant hasLastY == (i > 0)
      invariant i == 0 ==> lines == [] && currentLine == []
      invariant i > 0 ==> lastY == items[i - 1].transform.f && currentLine != []
      invariant i > 0 ==> lines + [currentLine] == LinesOf(items[..i])
    {
      var item := items[i];
      var currentY := item.transform.f;
      ghost var prefix := items[..i + 1];
      assert prefix[..i] == items[..i] && prefix[i] == item;
      assert i > 0 ==> Last(items[..i]) == items[i - 1];
      if hasLastY && Abs(currentY - lastY) > Max(item.height * 0.3, LineTolerance) {
        assert LinesOf(prefix) == LinesOf(items[..i]) + [[item]];
        if |currentLine| > 0 {
          lines := lines + [currentLine];
          currentLine := [];
        }
      } else if hasLastY {
        assert (lines + [currentLine])[..|lines|] == lines;
        assert LinesOf(prefix) == lines + [currentLine + [item]];
      } else {
        assert LinesOf(prefix) == [[item]];
      }
      currentLine := currentLine + [item];
      lastY := currentY;
      hasLastY := true;
      assert i == 0 || StartsNewLine(items[i - 1], item) ==> currentLine == [item];
    }
    if |currentLine| > 0 {
      lines := lines + [currentLine];
    }
    assert items[..|items|] == items;
  }

  /** A text run of height 12 on the baseline `y`. */
  function RunAt(y: real): TextItem {
    TextItem("w", Transform(1.0, 0.0, 0.0, 1.0, 72.0, y), 10.0, 12.0, "F1", false, "ltr")
  }

  /** Baselines 100, 100.5, 150 and 150.2 at height 12 make exactly two lines. */
  lemma TwoLineExample()
    ensures LinesOf([RunAt(100.0), RunAt(100.5), RunAt(150.0), RunAt(150.2)])
            == [[RunAt(100.0), RunAt(100.5)], [RunAt(150.0), RunAt(150.2)]]
  {
    var lines := [[RunAt(100.0), RunAt(100.5)], [RunAt(150.0), RunAt(150.2)]];
    var items := [RunAt(100.0), RunAt(100.5), RunAt(150.0), RunAt(150.2)];
    assert Flatten(lines) == items by {
      assert lines[..1] == [lines[0]];
      assert Flatten(lines[..1]) == lines[0] by {
        assert lines[..1][..0] == [];
      }
    }
    LineGroupingUnique(items, lines);
  }
}
