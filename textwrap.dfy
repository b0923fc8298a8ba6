/**
 * `wrapText(context, text, maxWidth)`: the greedy line breaking used to
 * lay the caption out on the template. The text is split at single
 * spaces; a word joins the current line only when the measured width of
 * `line + " " + word` is below `maxWidth`, otherwise it starts a new line.
 * The canvas measurement is a function parameter.
 */
module TextWrap {
  import opened Strings

  /** The words of consecutive groups, in order. */
  function Flatten(gs: seq<seq<string>>): seq<string> {
    if |gs| == 0 then [] else gs[0] + Flatten(gs[1..])
  }

  /** Each group joined with single spaces. */
  function LinesOf(gs: seq<seq<string>>): (lines: seq<string>)
    ensures |lines| == |gs|
  {
    if |gs| == 0 then [] else [Join(gs[0], " ")] + LinesOf(gs[1..])
  }

  /**
   * The greedy grouping: `current` holds the words of the line being
   * built, `rest` the words still to place.
   */
  function Grouping(current: seq<string>, rest: seq<string>, measure: string -> real, maxWidth: real): (gs: seq<seq<string>>)
    requires |current| >= 1
    ensures |gs| >= 1
    ensures forall i :: 0 <= i < |gs| ==> |gs[i]| >= 1
    ensures Flatten(gs) == current + rest
    decreases |rest|
  {
    if |rest| == 0 then
      FlattenCons(current, []);
      [current]
    else if measure(Join(current, " ") + " " + rest[0]) < maxWidth then
      assert current + rest == (current + [rest[0]]) + rest[1..];
      Grouping(current + [rest[0]], rest[1..], measure, maxWidth)
    else
      var tail := Grouping([rest[0]], rest[1..], measure, maxWidth);
      FlattenCons(current, tail);
      assert current + rest == current + ([rest[0]] + rest[1..]);
      [current] + tail
  }

  /** The words of a group followed by more groups. */
  lemma FlattenCons(g: seq<string>, gs: seq<seq<string>>)
    ensures Flatten([g] + gs) == g + Flatten(gs)
  {
    assert ([g] + gs)[1..] == gs;
  }

  /** Appending a word to a non-empty group appends a space and the word to its line. */
  lemma {:induction false} JoinSnoc(ws: seq<string>, w: string)
    requires |ws| >= 1
    ensures Join(ws + [w], " ") == Join(ws, " ") + " " + w
    decreases |ws|
  {
    var v := ws + [w];
    if |ws| == 1 {
      assert v[1..] == [w];
      assert Join(v, " ") == v[0] + " " + Join([w], " ");
    } else {
      assert v[1..] == ws[1..] + [w];
      JoinSnoc(ws[1..], w);
      calc {
        Join(v, " ");
        v[0] + " " + Join(ws[1..] + [w], " ");
        ws[0] + " " + (Join(ws[1..], " ") + " " + w);
        (ws[0] + " " + Join(ws[1..], " ")) + " " + w;
        Join(ws, " ") + " " + w;
      }
    }
  }

  /** Joining two non-empty word runs with a space joins their concatenation. */
  lemma {:induction false} JoinAppend(a: seq<string>, b: seq<string>)
    requires |a| >= 1 && |b| >= 1
    ensures Join(a + b, " ") == Join(a, " ") + " " + Join(b, " ")
    decreases |a|
  {
    if |a| == 1 {
      assert (a + b)[1..] == b;
    } else {
      assert (a + b)[1..] == a[1..] + b;
      JoinAppend(a[1..], b);
    }
  }

  /** Joining the lines of non-empty groups gives the joined words. */
  lemma {:induction false} JoinLines(gs: seq<seq<string>>)
    requires |gs| >= 1 && forall i :: 0 <= i < |gs| ==> |gs[i]| >= 1
    ensures Join(LinesOf(gs), " ") == Join(Flatten(gs), " ")
  {
    if |gs| > 1 {
      JoinLines(gs[1..]);
      assert LinesOf(gs)[1..] == LinesOf(gs[1..]);
      FlattenNonEmpty(gs[1..]);
      JoinAppend(gs[0], Flatten(gs[1..]));
    } else {
      assert Flatten(gs) == gs[0] + Flatten(gs[1..]) == gs[0];
    }
  }

  /** Non-empty groups flatten to a non-empty word run. */
  lemma FlattenNonEmpty(gs: seq<seq<string>>)
    requires |gs| >= 1 && |gs[0]| >= 1
    ensures |Flatten(gs)| >= 1
  {
  }

  /**
   * Why each break happened: within a group every word was added because
   * the widened line measured below `maxWidth`, and between two groups the
   * first word of the second did not fit on the first.
   */
  lemma {:induction false} GroupingIsGreedy(current: seq<string>, rest: seq<string>, measure: string -> real, maxWidth: real)
    requires |current| >= 1
    requires forall j :: 1 <= j < |current| ==> measure(Join(current[..j], " ") + " " + current[j]) < maxWidth
    ensures var gs := Grouping(current, rest, measure, maxWidth);
      && (forall i, j :: 0 <= i < |gs| && 1 <= j < |gs[i]| ==> measure(Join(gs[i][..j], " ") + " " + gs[i][j]) < maxWidth)
      && (forall i :: 0 <= i < |gs| - 1 ==> !(measure(Join(gs[i], " ") + " " + gs[i + 1][0]) < maxWidth))
    decreases |rest|
  {
    if |rest| == 0 {
      assert Grouping(current, rest, measure, maxWidth) == [current];
    } else {
      var w := rest[0];
      if measure(Join(current, " ") + " " + w) < maxWidth {
        var next := current + [w];
        FilledOneMore(current, w, measure, maxWidth);
        GroupingIsGreedy(next, rest[1..], measure, maxWidth);
        assert Grouping(current, rest, measure, maxWidth) == Grouping(next, rest[1..], measure, maxWidth);
      } else {
        GroupingIsGreedy([w], rest[1..], measure, maxWidth);
        var tail := Grouping([w], rest[1..], measure, maxWidth);
        GroupingHead([w], rest[1..], measure, maxWidth);
        assert Grouping(current, rest, measure, maxWidth) == [current] + tail;
        BreakBefore(current, tail, measure, maxWidth);
      }
    }
  }

  /** A word that fits extends a line that was filled greedily. */
  lemma FilledOneMore(current: seq<string>, w: string, measure: string -> real, maxWidth: real)
    requires forall j :: 1 <= j < |current| ==> measure(Join(current[..j], " ") + " " + current[j]) < maxWidth
    requires measure(Join(current, " ") + " " + w) < maxWidth
    ensures var next := current + [w];
      forall j :: 1 <= j < |next| ==> measure(Join(next[..j], " ") + " " + next[j]) < maxWidth
  {
    var next := current + [w];
    forall j | 1 <= j < |next| ensures measure(Join(next[..j], " ") + " " + next[j]) < maxWidth {
      if j < |current| {
        assert next[..j] == current[..j] && next[j] == current[j];
      } else {
        assert next[..j] == current && next[j] == w;
      }
    }
  }

  /** A greedily filled line, broken before a word that did not fit, followed by greedy groups. */
  lemma BreakBefore(current: seq<string>, tail: seq<seq<string>>, measure: string -> real, maxWidth: real)
    requires |tail| >= 1 && forall i :: 0 <= i < |tail| ==> |tail[i]| >= 1
    requires forall j :: 1 <= j < |current| ==> measure(Join(current[..j], " ") + " " + current[j]) < maxWidth
    requires forall i, j :: 0 <= i < |tail| && 1 <= j < |tail[i]| ==> measure(Join(tail[i][..j], " ") + " " + tail[i][j]) < maxWidth
    requires forall i :: 0 <= i < |tail| - 1 ==> !(measure(Join(tail[i], " ") + " " + tail[i + 1][0]) < maxWidth)
    requires !(measure(Join(current, " ") + " " + tail[0][0]) < maxWidth)
    ensures var gs := [current] + tail;
      && (forall i, j :: 0 <= i < |gs| && 1 <= j < |gs[i]| ==> measure(Join(gs[i][..j], " ") + " " + gs[i][j]) < maxWidth)
      && (forall i :: 0 <= i < |gs| - 1 ==> !(measure(Join(gs[i], " ") + " " + gs[i + 1][0]) < maxWidth))
  {
    var gs := [current] + tail;
    forall i | 0 <= i < |gs| - 1 ensures !(measure(Join(gs[i], " ") + " " + gs[i + 1][0]) < maxWidth) {
      if i > 0 {
        assert gs[i] == tail[i - 1] && gs[i + 1] == tail[i];
      } else {
        assert gs[0] == current && gs[1] == tail[0];
      }
    }
    forall i, j | 0 <= i < |gs| && 1 <= j < |gs[i]| ensures measure(Join(gs[i][..j], " ") + " " + gs[i][j]) < maxWidth {
      if i > 0 {
        assert gs[i] == tail[i - 1];
      }
    }
  }

  /** The first group starts with the first word of the current line. */
  lemma {:induction false} GroupingHead(current: seq<string>, rest: seq<string>, measure: string -> real, maxWidth: real)
    requires |current| >= 1
    ensures Grouping(current, rest, measure, maxWidth)[0][0] == current[0]
    decreases |rest|
  {
    if |rest| > 0 && measure(Join(current, " ") + " " + rest[0]) < maxWidth {
      GroupingHead(current + [rest[0]], rest[1..], measure, maxWidth);
    }
  }

  /** One word of the loop: it either joins the current line or closes it. */
  lemma GroupingStep(current: seq<string>, w: string, rest: seq<string>, measure: string -> real, maxWidth: real)
    requires |current| >= 1
    ensures measure(Join(current, " ") + " " + w) < maxWidth ==>
      Grouping(current, [w] + rest, measure, maxWidth) == Grouping(current + [w], rest, measure, maxWidth)
    ensures !(measure(Join(current, " ") + " " + w) < maxWidth) ==>
      LinesOf(Grouping(current, [w] + rest, measure, maxWidth)) == [Join(current, " ")] + LinesOf(Grouping([w], rest, measure, maxWidth))
  {
    assert ([w] + rest)[0] == w && ([w] + rest)[1..] == rest;
    if !(measure(Join(current, " ") + " " + w) < maxWidth) {
      var tail := Grouping([w], rest, measure, maxWidth);
      assert ([current] + tail)[1..] == tail;
    }
  }

  /** One iteration of the loop in `WrapText` keeps the lines still to come equal to the greedy ones. */
  lemma LoopStep(lines: seq<string>, current: seq<string>, w: string, rest: seq<string>, goal: seq<string>,
                 measure: string -> real, maxWidth: real)
    requires |current| >= 1
    requires lines + LinesOf(Grouping(current, [w] + rest, measure, maxWidth)) == goal
    ensures measure(Join(current, " ") + " " + w) < maxWidth ==>
      && Join(current + [w], " ") == Join(current, " ") + " " + w
      && lines + LinesOf(Grouping(current + [w], rest, measure, maxWidth)) == goal
    ensures !(measure(Join(current, " ") + " " + w) < maxWidth) ==>
      (lines + [Join(current, " ")]) + LinesOf(Grouping([w], rest, measure, maxWidth)) == goal
  {
    GroupingStep(current, w, rest, measure, maxWidth);
    if measure(Join(current, " ") + " " + w) < maxWidth {
      JoinSnoc(current, w);
    } else {
      var later := LinesOf(Grouping([w], rest, measure, maxWidth));
      assert lines + ([Join(current, " ")] + later) == (lines + [Join(current, " ")]) + later;
    }
  }

  /** With no word left, the current line is the last one. */
  lemma LastLine(lines: seq<string>, current: seq<string>, goal: seq<string>, measure: string -> real, maxWidth: real)
    requires |current| >= 1
    requires lines + LinesOf(Grouping(current, [], measure, maxWidth)) == goal
    ensures lines + [Join(current, " ")] == goal
  {
    assert Grouping(current, [], measure, maxWidth) == [current];
    assert LinesOf([current]) == [Join(current, " ")];
  }

  /** The lines `wrapText` returns for `text`. */
  function Wrapped(text: string, measure: string -> real, maxWidth: real): seq<string> {
    var words := Split(text, ' ');
    LinesOf(Grouping([words[0]], words[1..], measure, maxWidth))
  }

  /** Joining the wrapped lines with single spaces gives back the text. */
  lemma WrappedJoin(text: string, measure: string -> real, maxWidth: real)
    ensures |Wrapped(text, measure, maxWidth)| >= 1
    ensures Join(Wrapped(text, measure, maxWidth), " ") == text
  {
    var words := Split(text, ' ');
    var gs := Grouping([words[0]], words[1..], measure, maxWidth);
    JoinLines(gs);
    assert [words[0]] + words[1..] == words;
    JoinSplit(text, ' ');
  }

  /**
   * `wrapText`: the loop over the words after the first, building the
   * current line and pushing it when the next word does not fit.
   */
  method WrapText(text: string, measure: string -> real, maxWidth: real) returns (lines: seq<string>)
    ensures lines == Wrapped(text, measure, maxWidth)
    ensures |lines| >= 1 && Join(lines, " ") == text
  {
    var words := Split(text, ' ');
    ghost var goal := LinesOf(Grouping([words[0]], words[1..], measure, maxWidth));
    lines := [];
    var currentLine := words[0];
    ghost var current := [words[0]];
    var i := 1;
    while i < |words|
      invariant 1 <= i <= |words|
      invariant |current| >= 1 && currentLine == Join(current, " ")
      invariant lines + LinesOf(Grouping(current, words[i..], measure, maxWidth)) == goal
    {
      var word := words[i];
      assert words[i..] == [word] + words[i + 1..];
      LoopStep(lines, current, word, words[i + 1..], goal, measure, maxWidth);
      if measure(currentLine + " " + word) < maxWidth {
        currentLine := currentLine + " " + word;
        current := current + [word];
      } else {
        lines := lines + [currentLine];
        currentLine := word;
        current := [word];
      }
      i := i + 1;
    }
    assert words[i..] == [];
    LastLine(lines, current, goal, measure, maxWidth);
    lines := lines + [currentLine];
    WrappedJoin(text, measure, maxWidth);
  }
}
