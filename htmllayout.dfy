/**
 * The HTML parser's layout helpers: word wrapping of a paragraph and the
 * formatting of one table row.
 */
module HtmlLayout {
  import opened MailTypes
  import opened HtmlText

  /** isspace in the C locale, which separates the words std::istringstream reads. */
  predicate IsSpace(c: char)
  {
    c == ' ' || c == '\t' || c == '\n' || c == '\U{0B}' || c == '\U{0C}' || c == '\r'
  }

  /** A word: nonempty, no white space in it. */
  predicate IsWord(w: Text)
  {
    |w| > 0 && forall k :: 0 <= k < |w| ==> !IsSpace(w[k])
  }

  /** Where the word at the start of s ends. */
  function WordEnd(s: Text): (n: nat)
    ensures n <= |s| && (n < |s| ==> IsSpace(s[n]))
    ensures forall k :: 0 <= k < n ==> !IsSpace(s[k])
  {
    if |s| == 0 || IsSpace(s[0]) then 0 else 1 + WordEnd(s[1..])
  }

  /** The words `words >> word` reads from the text, in order. */
  function Words(s: Text): (ws: seq<Text>)
    ensures forall k :: 0 <= k < |ws| ==> IsWord(ws[k])
    decreases |s|
  {
    if |s| == 0 then []
    else if IsSpace(s[0]) then Words(s[1..])
    else
      var n := WordEnd(s);
      [s[..n]] + Words(s[n..])
  }

  function Spaces(n: nat): (r: Text)
    ensures |r| == n && forall k :: 0 <= k < n ==> r[k] == ' '
  {
    if n == 0 then "" else Spaces(n - 1) + " "
  }

  /** Words joined by single spaces. */
  function Join(g: seq<Text>): Text
  {
    if |g| == 0 then ""
    else if |g| == 1 then g[0]
    else Join(g[..|g| - 1]) + " " + g[|g| - 1]
  }

  /** Joining nonempty words gives the empty text only for no words. */
  lemma {:induction false} JoinEmpty(g: seq<Text>)
    requires forall k :: 0 <= k < |g| ==> |g[k]| > 0
    ensures |Join(g)| == 0 <==> |g| == 0
  {
    if |g| > 1 {
      assert |Join(g)| >= |g[|g| - 1]|;
    }
  }

  /** The word at the start of a text ends where it would end in any longer text that goes on with white space. */
  lemma {:induction false} WordEndAppend(t: Text, u: Text)
    requires WordEnd(t) < |t| || (|u| > 0 && IsSpace(u[0]))
    ensures WordEnd(t + u) == WordEnd(t)
    decreases |t|
  {
    if |t| > 0 && !IsSpace(t[0]) {
      assert (t + u)[1..] == t[1..] + u;
      WordEndAppend(t[1..], u);
    }
  }

  /** Reading the words of a text followed by a space and a word gives one word more. */
  lemma {:induction false} WordsSnoc(t: Text, w: Text)
    requires IsWord(w)
    ensures Words(t + " " + w) == Words(t) + [w]
    decreases |t|
  {
    var s := t + " " + w;
    if |t| == 0 {
      assert s[1..] == w;
      WordsOfWord(w);
    } else if IsSpace(t[0]) {
      assert s[1..] == t[1..] + " " + w;
      WordsSnoc(t[1..], w);
    } else {
      WordEndAppend(t, " " + w);
      var n := WordEnd(t);
      assert s[..n] == t[..n];
      assert s[n..] == t[n..] + " " + w;
      WordsSnoc(t[n..], w);
    }
  }

  /** A single word reads as itself. */
  lemma WordsOfWord(w: Text)
    requires IsWord(w)
    ensures Words(w) == [w]
  {
    assert !IsSpace(w[0]);
    assert WordEnd(w) == |w|;
    assert w[..|w|] == w;
    assert Words(w[|w|..]) == [];
  }

  /** Joining words with single spaces and reading them back gives the same words. */
  lemma {:induction false} JoinWords(g: seq<Text>)
    requires forall k :: 0 <= k < |g| ==> IsWord(g[k])
    ensures Words(Join(g)) == g
    decreases |g|
  {
    if |g| == 1 {
      WordsOfWord(g[0]);
    } else if |g| > 1 {
      var init := g[..|g| - 1];
      JoinWords(init);
      WordsSnoc(Join(init), g[|g| - 1]);
    }
  }

  /** A wrapped line: the indent, then its words joined by single spaces. */
  function Line(g: seq<Text>, indent: nat): Text
  {
    Spaces(indent) + Join(g)
  }

  /** The lines the wrapper has finished, and the words of the line it is filling. */
  datatype Layout = Layout(closed: seq<seq<Text>>, open: seq<Text>)

  /**
   * The wrapper's greedy choice, word after word: a word that does not fit
   * on the current line (line, space and word longer than maxWidth) closes
   * the line and starts the next one; otherwise it joins the current line.
   */
  function Fill(ws: seq<Text>, maxWidth: int, indent: nat): Layout
    decreases |ws|
  {
    if |ws| == 0 then Layout([], [])
    else
      var l := Fill(ws[..|ws| - 1], maxWidth, indent);
      var w := ws[|ws| - 1];
      if |Line(l.open, indent)| + |w| + 1 > maxWidth then Layout(l.closed + [l.open], [w])
      else Layout(l.closed, l.open + [w])
  }

  /** Every closed line followed by a newline. */
  function RenderClosed(closed: seq<seq<Text>>, indent: nat): Text
  {
    if |closed| == 0 then ""
    else RenderClosed(closed[..|closed| - 1], indent) + Line(closed[|closed| - 1], indent) + "\n"
  }

  /** The wrapped text: the closed lines, and the last line when it has a word. */
  function Render(l: Layout, indent: nat): Text
  {
    RenderClosed(l.closed, indent) + (if |l.open| == 0 then "" else Line(l.open, indent))
  }

  /** HtmlParser::WrapText; the word extraction of std::istringstream is Words. */
  method WrapText(text: Text, maxWidth: int, indent: nat) returns (r: Text)
    ensures maxWidth <= indent ==> r == text
    ensures maxWidth > indent ==> r == Render(Fill(Words(text), maxWidth, indent), indent)
  {
    if maxWidth <= indent {
      return text;
    }
    var words := Words(text);
    var indentStr := Spaces(indent);
    r := "";
    var currentLine := indentStr;
    var i := 0;
    while i < |words|
      invariant i <= |words|
      invariant r == RenderClosed(Fill(words[..i], maxWidth, indent).closed, indent)
      invariant currentLine == Line(Fill(words[..i], maxWidth, indent).open, indent)
    {
      var word := words[i];
      assert words[..i + 1][..i] == words[..i];
      WrapStep(words[..i + 1], maxWidth, indent);
      if |currentLine| + |word| + 1 > maxWidth {
        r := r + currentLine + "\n";
        currentLine := indentStr + word;
      } else {
        if currentLine != indentStr {
          currentLine := currentLine + " ";
        }
        currentLine := currentLine + word;
      }
      i := i + 1;
    }
    assert words[..i] == words;
    FillWords(words, maxWidth, indent);
    LineIsIndent(Fill(words, maxWidth, indent).open, indent);
    if currentLine != indentStr {
      r := r + currentLine;
    }
  }

  /** A line shows nothing past its indent exactly when it has no word. */
  lemma LineIsIndent(g: seq<Text>, indent: nat)
    requires forall k :: 0 <= k < |g| ==> |g[k]| > 0
    ensures Line(g, indent) == Spaces(indent) <==> |g| == 0
  {
    JoinEmpty(g);
    if Line(g, indent) == Spaces(indent) {
      assert |Join(g)| == 0;
    }
  }

  /** Every word of a line is nonempty. */
  predicate NonEmptyWords(g: seq<Text>)
  {
    forall k :: 0 <= k < |g| ==> |g[k]| > 0
  }

  /** Every line of the fill holds nonempty words when the words read are nonempty. */
  lemma {:induction false} FillWords(ws: seq<Text>, maxWidth: int, indent: nat)
    requires NonEmptyWords(ws)
    ensures NonEmptyWords(Fill(ws, maxWidth, indent).open)
    ensures forall g :: g in Fill(ws, maxWidth, indent).closed ==> NonEmptyWords(g)
    decreases |ws|
  {
    if |ws| > 0 {
      var init := ws[..|ws| - 1];
      FillWords(init, maxWidth, indent);
      var l, w := Fill(init, maxWidth, indent), ws[|ws| - 1];
      assert |w| > 0;
      if |Line(l.open, indent)| + |w| + 1 > maxWidth {
        assert Fill(ws, maxWidth, indent) == Layout(l.closed + [l.open], [w]);
      } else {
        assert Fill(ws, maxWidth, indent) == Layout(l.closed, l.open + [w]);
        assert forall k :: 0 <= k < |l.open| ==> (l.open + [w])[k] == l.open[k];
      }
    }
  }

  /** One word read by the wrapper: what the loop appends to the result and to the current line. */
  lemma WrapStep(ws: seq<Text>, maxWidth: int, indent: nat)
    requires |ws| > 0 && forall k :: 0 <= k < |ws| ==> |ws[k]| > 0
    ensures var l, l' := Fill(ws[..|ws| - 1], maxWidth, indent), Fill(ws, maxWidth, indent);
      var w, cur := ws[|ws| - 1], Line(l.open, indent);
      && (|cur| + |w| + 1 > maxWidth ==>
            RenderClosed(l'.closed, indent) == RenderClosed(l.closed, indent) + cur + "\n"
            && Line(l'.open, indent) == Spaces(indent) + w)
      && (|cur| + |w| + 1 <= maxWidth ==>
            l'.closed == l.closed
            && Line(l'.open, indent) == (if cur != Spaces(indent) then cur + " " else cur) + w)
  {
    var init := ws[..|ws| - 1];
    var l := Fill(init, maxWidth, indent);
    var w := ws[|ws| - 1];
    var cur := Line(l.open, indent);
    if |cur| + |w| + 1 > maxWidth {
      assert Fill(ws, maxWidth, indent) == Layout(l.closed + [l.open], [w]);
      RenderClosedSnoc(l.closed, l.open, indent);
    } else {
      assert Fill(ws, maxWidth, indent) == Layout(l.closed, l.open + [w]);
      FillWords(init, maxWidth, indent);
      LineIsIndent(l.open, indent);
      LineSnoc(l.open, w, indent);
    }
  }

  /** Closing a line renders it after the lines closed before. */
  lemma RenderClosedSnoc(gs: seq<seq<Text>>, g: seq<Text>, indent: nat)
    ensures RenderClosed(gs + [g], indent) == RenderClosed(gs, indent) + Line(g, indent) + "\n"
  {
    assert (gs + [g])[..|gs|] == gs;
  }

  /** A word joining a line follows a space unless the line has no word yet. */
  lemma LineSnoc(g: seq<Text>, w: Text, indent: nat)
    ensures Line(g + [w], indent) == (if |g| == 0 then Line(g, indent) else Line(g, indent) + " ") + w
  {
    assert (g + [w])[..|g|] == g;
  }

  /** The words of the closed lines, in order. */
  function Flatten(gs: seq<seq<Text>>): seq<Text>
  {
    if |gs| == 0 then [] else Flatten(gs[..|gs| - 1]) + gs[|gs| - 1]
  }

  /** Wrapping loses no word, splits none and keeps their order. */
  lemma {:induction false} FillKeepsWords(ws: seq<Text>, maxWidth: int, indent: nat)
    ensures Flatten(Fill(ws, maxWidth, indent).closed) + Fill(ws, maxWidth, indent).open == ws
    decreases |ws|
  {
    if |ws| > 0 {
      var init := ws[..|ws| - 1];
      FillKeepsWords(init, maxWidth, indent);
      var l := Fill(init, maxWidth, indent);
      var w := ws[|ws| - 1];
      assert ws == init + [w];
      if |Line(l.open, indent)| + |w| + 1 > maxWidth {
        assert Fill(ws, maxWidth, indent) == Layout(l.closed + [l.open], [w]);
        FlattenSnoc(l.closed, l.open);
      } else {
        assert Fill(ws, maxWidth, indent) == Layout(l.closed, l.open + [w]);
      }
    }
  }

  /** Closing a line appends its words to the flattened lines. */
  lemma FlattenSnoc(gs: seq<seq<Text>>, g: seq<Text>)
    ensures Flatten(gs + [g]) == Flatten(gs) + g
  {
    assert (gs + [g])[..|gs|] == gs;
  }

  /**
   * Every line fits in maxWidth unless it is a single word too long for any
   * line; the first line is empty when the first word does not fit beside
   * the indent, and no other line is.
   */
  lemma {:induction false} FillFits(ws: seq<Text>, maxWidth: int, indent: nat)
    requires maxWidth > indent && forall k :: 0 <= k < |ws| ==> |ws[k]| > 0
    ensures var l := Fill(ws, maxWidth, indent);
      && (forall k :: 0 <= k < |l.closed| ==> |Line(l.closed[k], indent)| <= maxWidth || |l.closed[k]| == 1)
      && (|Line(l.open, indent)| <= maxWidth || |l.open| == 1)
      && (forall k :: 0 < k < |l.closed| ==> |l.closed[k]| > 0)
    decreases |ws|
  {
    if |ws| > 0 {
      var init := ws[..|ws| - 1];
      FillFits(init, maxWidth, indent);
      FillFirstWord(init, maxWidth, indent);
      var l := Fill(init, maxWidth, indent);
      var w := ws[|ws| - 1];
      if |Line(l.open, indent)| + |w| + 1 <= maxWidth {
        FillWords(init, maxWidth, indent);
        JoinEmpty(l.open);
        assert |Line(l.open + [w], indent)| <= |Line(l.open, indent)| + |w| + 1 by {
          assert (l.open + [w])[..|l.open|] == l.open;
        }
      }
    }
  }

  /** Line k of a layout, the line being filled counted last. */
  function LineAt(l: Layout, k: nat): seq<Text>
  {
    if k < |l.closed| then l.closed[k] else l.open
  }

  /** Closed line k could not have taken the first word of the line after it. */
  predicate NoRoomAfter(l: Layout, k: nat, maxWidth: int, indent: nat)
    requires k < |l.closed|
  {
    |LineAt(l, k + 1)| > 0 && |Line(l.closed[k], indent)| + |LineAt(l, k + 1)[0]| + 1 > maxWidth
  }

  /**
   * The wrap is greedy: no closed line could have taken the first word of
   * the line after it.
   */
  lemma {:induction false} FillGreedy(ws: seq<Text>, maxWidth: int, indent: nat)
    ensures var l := Fill(ws, maxWidth, indent);
      forall k :: 0 <= k < |l.closed| ==> NoRoomAfter(l, k, maxWidth, indent)
    decreases |ws|
  {
    if |ws| > 0 {
      var init := ws[..|ws| - 1];
      FillGreedy(init, maxWidth, indent);
      FillFirstWord(init, maxWidth, indent);
      var l := Fill(init, maxWidth, indent);
      var w := ws[|ws| - 1];
      var l' := Fill(ws, maxWidth, indent);
      var closing := |Line(l.open, indent)| + |w| + 1 > maxWidth;
      if closing {
        assert l' == Layout(l.closed + [l.open], [w]);
      } else {
        assert l' == Layout(l.closed, l.open + [w]);
      }
      forall k | 0 <= k < |l'.closed|
        ensures NoRoomAfter(l', k, maxWidth, indent)
      {
        if k < |l.closed| {
          assert NoRoomAfter(l, k, maxWidth, indent);
          assert l'.closed[k] == l.closed[k];
          if k + 1 < |l.closed| {
            assert LineAt(l', k + 1) == LineAt(l, k + 1);
          } else {
            assert LineAt(l', k + 1)[0] == LineAt(l, k + 1)[0];
          }
        } else {
          assert closing && l'.closed[k] == l.open && LineAt(l', k + 1) == [w];
        }
      }
    }
  }

  /** Once a line is closed, the line being filled has a word. */
  lemma {:induction false} FillFirstWord(ws: seq<Text>, maxWidth: int, indent: nat)
    ensures var l := Fill(ws, maxWidth, indent); |l.closed| > 0 ==> |l.open| > 0
    decreases |ws|
  {
    if |ws| > 0 {
      var init := ws[..|ws| - 1];
      FillFirstWord(init, maxWidth, indent);
      var l := Fill(init, maxWidth, indent);
      var l' := Fill(ws, maxWidth, indent);
      assert l' == Layout(l.closed + [l.open], [ws[|ws| - 1]]) || l' == Layout(l.closed, l.open + [ws[|ws| - 1]]);
    }
  }

  /** The table's column separator, U+2502 in UTF-8. */
  const Bar: Text := "\U{E2}\U{94}\U{82}"

  /** Where column j starts in a formatted row: after the leading bar and j columns of width + 5 bytes. */
  function Off(widths: seq<nat>, j: nat): nat
    requires j <= |widths|
  {
    if j == 0 then |Bar| else Off(widths, j - 1) + widths[j - 1] + 5
  }

  lemma {:induction false} OffMonotone(widths: seq<nat>, i: nat, j: nat)
    requires i <= j <= |widths|
    ensures Off(widths, i) + 5 * (j - i) <= Off(widths, j)
    decreases j - i
  {
    if i < j {
      OffMonotone(widths, i, j - 1);
    }
  }

  /**
   * One column as shown: a space, the cell left-aligned and padded to the
   * width (cut to width - 3 bytes and "..." when longer), a space and a bar.
   */
  ghost predicate ColumnShows(seg: Text, cell: Text, w: nat)
  {
    && |seg| == w + 5
    && seg[0] == ' '
    && (|cell| <= w ==> seg[1..w + 1] == cell + Spaces(w - |cell|))
    && (|cell| > w ==> w >= 3 && seg[1..w + 1] == cell[..w - 3] + "...")
    && seg[w + 1] == ' '
    && seg[w + 2..] == Bar
  }

  /** A cell too long for a column narrower than "...": the padding count goes negative and std::string throws. */
  predicate Overflows(cell: Text, w: nat)
  {
    |cell| > w && w < 3
  }

  /** Column j of a formatted row. */
  ghost predicate ColumnAt(s: Text, row: seq<Text>, widths: seq<nat>, j: nat)
    requires j < |row| && j < |widths|
  {
    Off(widths, j + 1) <= |s| && ColumnShows(s[Off(widths, j)..Off(widths, j + 1)], row[j], widths[j])
  }

  /** The first n columns of a formatted row. */
  ghost predicate RowShows(s: Text, row: seq<Text>, widths: seq<nat>, n: nat)
    requires n <= |row| && n <= |widths|
  {
    && |s| == Off(widths, n)
    && s[..|Bar|] == Bar
    && forall j :: 0 <= j < n ==> ColumnAt(s, row, widths, j)
  }

  /**
   * HtmlParser::FormatTableRow: one column per cell that has a width.
   * None stands for the std::length_error a cell longer than a column
   * narrower than 3 raises.
   */
  method FormatTableRow(row: seq<Text>, widths: seq<nat>) returns (r: Option<Text>)
    ensures var n := if |row| < |widths| then |row| else |widths|;
      && (r.None? <==> exists j :: 0 <= j < n && Overflows(row[j], widths[j]))
      && (r.Some? ==> RowShows(r.value, row, widths, n))
  {
    var n := if |row| < |widths| then |row| else |widths|;
    var result := Bar;
    var i := 0;
    while i < n
      invariant i <= n
      invariant RowShows(result, row, widths, i)
      invariant forall j :: 0 <= j < i ==> !Overflows(row[j], widths[j])
    {
      var cell := row[i];
      var w := widths[i];
      if |cell| > w {
        if w >= 3 {
          cell := cell[..w - 3] + "...";
        } else {
          cell := cell + "...";
        }
      }
      if |cell| > w + 1 {
        return None;
      }
      var seg := " " + cell + Spaces(w - |cell| + 1) + Bar;
      ColumnStep(row[i], w, cell, seg);
      RowStep(result, seg, row, widths, i);
      result := result + seg;
      i := i + 1;
    }
    r := Some(result);
  }

  /** The column a cell makes, once cut, is the column as shown. */
  lemma ColumnStep(cell: Text, w: nat, cut: Text, seg: Text)
    requires !Overflows(cell, w)
    requires cut == (if |cell| > w then cell[..w - 3] + "..." else cell)
    requires seg == " " + cut + Spaces(w - |cut| + 1) + Bar
    ensures ColumnShows(seg, cell, w)
  {
    if |cell| <= w {
      assert Spaces(w - |cut| + 1) == Spaces(w - |cut|) + " ";
      assert seg[1..w + 1] == cut + Spaces(w - |cut|);
    } else {
      assert Spaces(w - |cut| + 1) == " ";
      assert seg[1..w + 1] == cut;
    }
  }

  /** Appending a column keeps the columns before it. */
  lemma RowStep(s: Text, seg: Text, row: seq<Text>, widths: seq<nat>, i: nat)
    requires i < |row| && i < |widths| && RowShows(s, row, widths, i)
    requires ColumnShows(seg, row[i], widths[i])
    ensures RowShows(s + seg, row, widths, i + 1)
  {
    var t := s + seg;
    forall j | 0 <= j < i + 1
      ensures ColumnAt(t, row, widths, j)
    {
      OffMonotone(widths, j + 1, i + 1);
      if j < i {
        assert ColumnAt(s, row, widths, j);
        assert t[Off(widths, j)..Off(widths, j + 1)] == s[Off(widths, j)..Off(widths, j + 1)];
      } else {
        assert t[Off(widths, j)..Off(widths, j + 1)] == seg;
      }
    }
  }
}
