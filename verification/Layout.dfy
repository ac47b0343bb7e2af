/**
 Breaking a letter into lines and pages (firmware/chaski/components/layout/layout.cpp), over an
 abstract sequence of grapheme clusters.
 */
module Layout {
  import opened Basics

  datatype Cluster = Newline | Space | Glyph(code: nat)

  /** A stretch of clusters: a line, or a word or part of one. */
  datatype Text = Text(cells: seq<Cluster>)

  /** The letter as a reader sees it: words, and the line breaks its writer made. */
  datatype Token = Word(text: Text) | Break

  predicate AllGlyphs(s: seq<Cluster>)
  {
    forall i :: 0 <= i < |s| ==> s[i].Glyph?
  }

  predicate IsPiece(p: Text, width: nat)
  {
    0 < |p.cells| <= width && AllGlyphs(p.cells)
  }

  // ---------------------------------------------------------------- what a letter says

  /** A word no longer than a line stays whole; a longer one is cut at every full line. */
  function Wrapped(word: seq<Cluster>, width: nat): (ts: seq<Token>)
    requires width > 0
    decreases |word|
  {
    if word == [] then []
    else if |word| <= width then [Word(Text(word))]
    else [Word(Text(word[..width]))] + Wrapped(word[width..], width)
  }

  /** What has been read: the tokens so far and the word still open. */
  datatype Scanned = Scanned(tokens: seq<Token>, open: seq<Cluster>)

  function Closed(s: Scanned, width: nat): seq<Token>
    requires width > 0
  {
    s.tokens + Wrapped(s.open, width)
  }

  /** One cluster more. */
  function After(s: Scanned, x: Cluster, width: nat): Scanned
    requires width > 0
  {
    match x
    case Newline => Scanned(Closed(s, width) + [Break], [])
    case Space => Scanned(Closed(s, width), [])
    case Glyph(_) => Scanned(s.tokens, s.open + [x])
  }

  function Scan(body: seq<Cluster>, width: nat): (s: Scanned)
    requires width > 0
  {
    if body == [] then Scanned([], []) else After(Scan(body[..|body| - 1], width), body[|body| - 1], width)
  }

  /** The pieces of a letter in order, with the breaks between them. */
  function Tokens(body: seq<Cluster>, width: nat): seq<Token>
    requires width > 0
  {
    Closed(Scan(body, width), width)
  }

  // ---------------------------------------------------------------- rows

  /** A line as the pieces on it; `hard` when the writer broke it. */
  datatype Row = Row(pieces: seq<Text>, hard: bool)

  function Joined(pieces: seq<Text>): (s: seq<Cluster>)
  {
    if pieces == [] then []
    else if |pieces| == 1 then pieces[0].cells
    else Joined(pieces[..|pieces| - 1]) + [Space] + pieces[|pieces| - 1].cells
  }

  predicate RowOk(pieces: seq<Text>, width: nat)
  {
    (forall i :: 0 <= i < |pieces| ==> IsPiece(pieces[i], width)) && |Joined(pieces)| <= width
  }

  function Words(pieces: seq<Text>): (ts: seq<Token>)
    ensures |ts| == |pieces|
  {
    if pieces == [] then [] else Words(pieces[..|pieces| - 1]) + [Word(pieces[|pieces| - 1])]
  }

  /** What the rows say: their pieces in order, and the breaks that end them. */
  function Said(rows: seq<Row>): (ts: seq<Token>)
  {
    if rows == [] then []
    else
      var r := rows[|rows| - 1];
      Said(rows[..|rows| - 1]) + Words(r.pieces) + (if r.hard then [Break] else [])
  }

  /** A line the writer did not end is left only for a piece that no longer fits on it. */
  predicate Full(r: Row, next: seq<Text>, width: nat)
  {
    !r.hard ==> next != [] && |Joined(r.pieces)| + 1 + |next[0].cells| > width
  }

  ghost predicate RowsOk(rows: seq<Row>, width: nat)
  {
    && (forall i :: 0 <= i < |rows| ==> RowOk(rows[i].pieces, width))
    && (forall i :: 0 <= i < |rows| - 1 ==> Full(rows[i], rows[i + 1].pieces, width))
  }

  /** Every row but an open one at the end says its pieces as one line. */
  ghost predicate Rendered(lines: seq<Text>, rows: seq<Row>)
  {
    |lines| == |rows| && forall i :: 0 <= i < |lines| ==> lines[i].cells == Joined(rows[i].pieces)
  }

  lemma JoinedPush(pieces: seq<Text>, p: Text)
    ensures Joined(pieces + [p]) == if pieces == [] then p.cells else Joined(pieces) + [Space] + p.cells
    ensures Words(pieces + [p]) == Words(pieces) + [Word(p)]
  {
    assert (pieces + [p])[..|pieces|] == pieces;
  }

  lemma SaidPush(rows: seq<Row>, r: Row)
    ensures Said(rows + [r]) == Said(rows) + Words(r.pieces) + (if r.hard then [Break] else [])
  {
    assert (rows + [r])[..|rows|] == rows;
  }

  // ---------------------------------------------------------------- the loop

  /** What BreakLines has built so far. */
  datatype Work = Work(lines: seq<Text>, line: seq<Cluster>, pendingSpace: bool)

  /** Its lines are rows, and its open line is `row`. */
  ghost predicate Built(w: Work, rows: seq<Row>, row: seq<Text>, width: nat)
  {
    && Rendered(w.lines, rows) && w.line == Joined(row)
    && RowsOk(rows, width) && RowOk(row, width)
    && (rows != [] && !rows[|rows| - 1].hard ==> Full(rows[|rows| - 1], row, width))
  }

  lemma PushRow(w: Work, rows: seq<Row>, row: seq<Text>, hard: bool, next: seq<Text>, width: nat)
    requires Built(w, rows, row, width) && RowOk(next, width) && Full(Row(row, hard), next, width)
    ensures Built(Work(w.lines + [Text(w.line)], Joined(next), false), rows + [Row(row, hard)], next, width)
    ensures Said(rows + [Row(row, hard)]) == Said(rows) + Words(row) + (if hard then [Break] else [])
  {
    SaidPush(rows, Row(row, hard));
    RowsPush(rows, Row(row, hard), width);
  }

  lemma RowsPush(rows: seq<Row>, r: Row, width: nat)
    requires RowsOk(rows, width) && RowOk(r.pieces, width)
    requires rows != [] && !rows[|rows| - 1].hard ==> Full(rows[|rows| - 1], r.pieces, width)
    ensures RowsOk(rows + [r], width)
  {
    var all := rows + [r];
    forall i | 0 <= i < |all| - 1
      ensures Full(all[i], all[i + 1].pieces, width)
    {
      assert all[i] == rows[i];
    }
  }

  lemma OnePiece(p: Text, width: nat)
    requires IsPiece(p, width)
    ensures RowOk([p], width) && Joined([p]) == p.cells && Words([p]) == [Word(p)]
  {
    assert [p][..0] == [];
  }

  /** The next piece to be cut from a long word. */
  function Chunk(word: seq<Cluster>, start: nat, width: nat): seq<Cluster>
    requires start <= |word|
  {
    if |word| - start > width then word[start..start + width] else word[start..]
  }

  /** Cutting: the lines so far, and the piece of the word from `start` as the open line. */
  ghost predicate Cutting(lines: seq<Text>, word: seq<Cluster>, start: nat, width: nat, rows: seq<Row>, said: seq<Token>)
    requires start <= |word| && width > 0
  {
    && Built(Work(lines, Chunk(word, start, width), false), rows, [Text(Chunk(word, start, width))], width)
    && Said(rows) + Wrapped(word[start..], width) == said
  }

  lemma CutStep(lines: seq<Text>, word: seq<Cluster>, start: nat, width: nat, rows: seq<Row>, said: seq<Token>)
    requires 0 < width < |word| - start && AllGlyphs(word) && Cutting(lines, word, start, width, rows, said)
    ensures var here := Text(word[start..start + width]);
            Cutting(lines + [here], word, start + width, width, rows + [Row([here], false)], said)
  {
    var here, next := Text(Chunk(word, start, width)), Text(Chunk(word, start + width, width));
    OnePiece(next, width);
    OnePiece(here, width);
    PushRow(Work(lines, here.cells, false), rows, [here], false, [next], width);
    assert word[start..][..width] == here.cells && word[start..][width..] == word[start + width..];
    CutOff(Said(rows), Word(here), Wrapped(word[start + width..], width));
  }

  /** layout.cpp:171-183: a word longer than a line is cut at every full line. */
  method WrapWord(lines0: seq<Text>, word: seq<Cluster>, width: nat, ghost rows0: seq<Row>, ghost said: seq<Token>)
    returns (lines: seq<Text>, line: seq<Cluster>, ghost rows: seq<Row>)
    requires 0 < width < |word| && AllGlyphs(word) && Cutting(lines0, word, 0, width, rows0, said)
    ensures Built(Work(lines, line, false), rows, [Text(line)], width)
    ensures Said(rows) + [Word(Text(line))] == said
  {
    var start := 0;
    lines, rows := lines0, rows0;
    while |word| - start > width
      invariant start < |word| && Cutting(lines, word, start, width, rows, said)
    {
      CutStep(lines, word, start, width, rows, said);
      var here := Text(word[start..start + width]);
      rows := rows + [Row([here], false)];
      lines := lines + [here];
      start := start + width;
    }
    line := word[start..];
  }

  lemma CutOff<T>(a: seq<T>, x: T, b: seq<T>)
    ensures (a + [x] + []) + b == a + ([x] + b)
  {
  }

  lemma EmptyLine(row: seq<Text>, width: nat)
    requires RowOk(row, width)
    ensures Joined(row) == [] <==> row == []
  {
    if row != [] {
      assert IsPiece(row[|row| - 1], width);
    }
  }

  /** Where a word that begins a line stands: as itself, or as the first piece cut from it. */
  lemma Begins(lines: seq<Text>, word: seq<Cluster>, width: nat, rows: seq<Row>)
    requires 0 < width && word != [] && AllGlyphs(word)
    requires var first := Chunk(word, 0, width); Built(Work(lines, first, false), rows, [Text(first)], width)
    ensures Cutting(lines, word, 0, width, rows, Said(rows) + Wrapped(word, width))
    ensures |word| <= width ==> Chunk(word, 0, width) == word && Said(rows) + Words([Text(word)]) == Said(rows) + Wrapped(word, width)
  {
    assert word[0..] == word;
    OnePiece(Text(Chunk(word, 0, width)), width);
  }

  /** The open line is ended, for a word that does not fit beside it. */
  lemma BeginsAfter(w: Work, rows: seq<Row>, row: seq<Text>, word: seq<Cluster>, width: nat)
    requires 0 < width && word != [] && AllGlyphs(word) && Built(w, rows, row, width) && |w.line| + 1 + |word| > width
    ensures var first, lines := Chunk(word, 0, width), w.lines + [Text(w.line)];
            Built(Work(lines, first, false), rows + [Row(row, false)], [Text(first)], width)
    ensures Said(rows + [Row(row, false)]) == Said(rows) + Words(row)
  {
    var first := Text(Chunk(word, 0, width));
    OnePiece(first, width);
    PushRow(w, rows, row, false, [first], width);
    assert Said(rows) + Words(row) + [] == Said(rows) + Words(row);
  }

  /** The open line is empty: the word begins it. */
  lemma BeginsHere(w: Work, rows: seq<Row>, word: seq<Cluster>, width: nat)
    requires 0 < width && word != [] && AllGlyphs(word) && Built(w, rows, [], width)
    ensures var first := Chunk(word, 0, width); Built(Work(w.lines, first, false), rows, [Text(first)], width)
    ensures Said(rows) + Words([]) == Said(rows)
  {
    OnePiece(Text(Chunk(word, 0, width)), width);
  }

  /** layout.cpp:167-184: the word goes on a fresh line. */
  method BeginLine(lines0: seq<Text>, word: seq<Cluster>, width: nat, ghost rows0: seq<Row>)
    returns (r: Work, ghost rows: seq<Row>, ghost row: seq<Text>)
    requires 0 < width && word != [] && AllGlyphs(word)
    requires var first := Chunk(word, 0, width); Built(Work(lines0, first, false), rows0, [Text(first)], width)
    ensures Built(r, rows, row, width) && !r.pendingSpace
    ensures Said(rows) + Words(row) == Said(rows0) + Wrapped(word, width)
  {
    Begins(lines0, word, width, rows0);
    if |word| <= width {
      return Work(lines0, word, false), rows0, [Text(word)];
    }
    var lines, line;
    lines, line, rows := WrapWord(lines0, word, width, rows0, Said(rows0) + Wrapped(word, width));
    row := [Text(line)];
    assert Words([Text(line)]) == [Word(Text(line))];
    r := Work(lines, line, false);
  }

  /** layout.cpp:149-188. */
  method PlaceWord(w: Work, word: seq<Cluster>, width: nat, ghost rows0: seq<Row>, ghost row0: seq<Text>)
    returns (r: Work, ghost rows: seq<Row>, ghost row: seq<Text>)
    requires 0 < width && AllGlyphs(word) && Built(w, rows0, row0, width) && (w.line != [] ==> w.pendingSpace)
    ensures Built(r, rows, row, width) && !r.pendingSpace
    ensures Said(rows) + Words(row) == Said(rows0) + Words(row0) + Wrapped(word, width)
  {
    if word == [] {
      assert Said(rows0) + Words(row0) + [] == Said(rows0) + Words(row0);
      return w.(pendingSpace := false), rows0, row0;
    }
    EmptyLine(row0, width);
    var sep := if w.pendingSpace && w.line != [] then 1 else 0;
    if w.line != [] && |w.line| + sep + |word| > width {
      BeginsAfter(w, rows0, row0, word, width);
      r, rows, row := BeginLine(w.lines + [Text(w.line)], word, width, rows0 + [Row(row0, false)]);
    } else if w.line != [] {
      FitsBeside(w, rows0, row0, Text(word), width);
      r, rows, row := Work(w.lines, w.line + [Space] + word, false), rows0, row0 + [Text(word)];
    } else {
      BeginsHere(w, rows0, word, width);
      r, rows, row := BeginLine(w.lines, word, width, rows0);
    }
  }

  lemma FitsBeside(w: Work, rows: seq<Row>, row: seq<Text>, p: Text, width: nat)
    requires Built(w, rows, row, width) && row != [] && IsPiece(p, width) && |w.line| + 1 + |p.cells| <= width
    ensures Built(Work(w.lines, w.line + [Space] + p.cells, false), rows, row + [p], width)
    ensures Said(rows) + Words(row + [p]) == Said(rows) + Words(row) + [Word(p)]
  {
    JoinedPush(row, p);
    assert (row + [p])[0] == row[0];
  }

  // ---------------------------------------------------------------- BreakLines

  /** A newline ends the open line. */
  lemma EndsHard(w: Work, rows: seq<Row>, row: seq<Text>, width: nat)
    requires Built(w, rows, row, width)
    ensures Built(Work(w.lines + [Text(w.line)], [], false), rows + [Row(row, true)], [], width)
    ensures Said(rows + [Row(row, true)]) + Words([]) == Said(rows) + Words(row) + [Break]
  {
    PushRow(w, rows, row, true, [], width);
  }

  /** The end of the letter ends it too. */
  lemma EndsLast(w: Work, rows: seq<Row>, row: seq<Text>, width: nat)
    requires Built(w, rows, row, width)
    ensures Rendered(w.lines + [Text(w.line)], rows + [Row(row, false)]) && RowsOk(rows + [Row(row, false)], width)
    ensures Said(rows + [Row(row, false)]) == Said(rows) + Words(row)
  {
    SaidPush(rows, Row(row, false));
    RowsPush(rows, Row(row, false), width);
  }

  /** The loop's state after `s` has been scanned. */
  ghost predicate Reading(w: Work, word: seq<Cluster>, rows: seq<Row>, row: seq<Text>, s: Scanned, width: nat)
  {
    && Built(w, rows, row, width) && (w.line != [] ==> w.pendingSpace)
    && AllGlyphs(word) && word == s.open && Said(rows) + Words(row) == s.tokens
  }

  /** layout.cpp:190-207: one cluster. */
  method ReadCluster(w0: Work, word0: seq<Cluster>, x: Cluster, width: nat, ghost s: Scanned, ghost rows0: seq<Row>, ghost row0: seq<Text>)
    returns (w: Work, word: seq<Cluster>, ghost rows: seq<Row>, ghost row: seq<Text>)
    requires width > 0 && Reading(w0, word0, rows0, row0, s, width)
    ensures Reading(w, word, rows, row, After(s, x, width), width)
  {
    match x {
      case Newline =>
        w, rows, row := PlaceWord(w0, word0, width, rows0, row0);
        EndsHard(w, rows, row, width);
        rows, row := rows + [Row(row, true)], [];
        w, word := Work(w.lines + [Text(w.line)], [], false), [];
      case Space =>
        w, rows, row := PlaceWord(w0, word0, width, rows0, row0);
        w, word := w.(pendingSpace := w.line != []), [];
      case Glyph(_) =>
        w, word, rows, row := w0, word0 + [x], rows0, row0;
    }
  }

  /** layout.cpp:208-210: the last word and the last line. */
  method Finish(w0: Work, word: seq<Cluster>, width: nat, ghost s: Scanned, ghost rows0: seq<Row>, ghost row0: seq<Text>)
    returns (lines: seq<Text>, ghost rows: seq<Row>)
    requires width > 0 && Reading(w0, word, rows0, row0, s, width)
    ensures Rendered(lines, rows) && RowsOk(rows, width) && Said(rows) == Closed(s, width) && lines != []
  {
    var w;
    ghost var row;
    w, rows, row := PlaceWord(w0, word, width, rows0, row0);
    EmptyLine(row, width);
    lines := w.lines;
    if w.line != [] || lines == [] {
      EndsLast(w, rows, row, width);
      lines, rows := lines + [Text(w.line)], rows + [Row(row, false)];
    }
  }

  /**
   layout.cpp:128-210. The lines say the letter's own words and breaks, in order and nothing else;
   every line fits, and is left early only for a piece that no longer fits on it.
   */
  method BreakLines(body: seq<Cluster>, charsPerLine: int) returns (lines: seq<Text>, ghost rows: seq<Row>)
    ensures var width := if charsPerLine < 1 then 1 else charsPerLine;
            Rendered(lines, rows) && RowsOk(rows, width) && Said(rows) == Tokens(body, width)
    ensures lines == [] <==> body == []
  {
    var width: nat := if charsPerLine < 1 then 1 else charsPerLine;
    if body == [] {
      assert Tokens(body, width) == [];
      return [], [];
    }
    var w, word := Work([], [], false), [];
    rows := [];
    ghost var row: seq<Text> := [];
    for i := 0 to |body|
      invariant Reading(w, word, rows, row, Scan(body[..i], width), width)
    {
      assert body[..i + 1][..i] == body[..i];
      w, word, rows, row := ReadCluster(w, word, body[i], width, Scan(body[..i], width), rows, row);
    }
    assert body[..|body|] == body;
    lines, rows := Finish(w, word, width, Scan(body, width), rows, row);
  }

  // ---------------------------------------------------------------- what that means for a reader

  /** No line begins or ends with a space. */
  lemma {:induction false} LineEnds(pieces: seq<Text>, width: nat)
    requires RowOk(pieces, width)
    ensures var s := Joined(pieces); s != [] ==> s[0].Glyph? && s[|s| - 1].Glyph?
    decreases |pieces|
  {
    if |pieces| == 1 {
      assert IsPiece(pieces[0], width);
    } else if |pieces| > 1 {
      var front, last := pieces[..|pieces| - 1], pieces[|pieces| - 1];
      assert IsPiece(last, width) && IsPiece(pieces[0], width);
      FrontFits(pieces, width);
      LineEnds(front, width);
      EmptyLine(front, width);
    }
  }

  lemma FrontFits(pieces: seq<Text>, width: nat)
    requires RowOk(pieces, width) && |pieces| > 1
    ensures RowOk(pieces[..|pieces| - 1], width)
  {
  }

  /** The clusters that are neither spaces nor newlines. */
  function Ink(s: seq<Cluster>): seq<Cluster>
  {
    if s == [] then [] else Ink(s[..|s| - 1]) + if s[|s| - 1].Glyph? then [s[|s| - 1]] else []
  }

  function InkOfTokens(ts: seq<Token>): seq<Cluster>
  {
    if ts == [] then [] else InkOfTokens(ts[..|ts| - 1]) + match ts[|ts| - 1] case Word(t) => t.cells case Break => []
  }

  function InkOfLines(lines: seq<Text>): seq<Cluster>
  {
    if lines == [] then [] else InkOfLines(lines[..|lines| - 1]) + Ink(lines[|lines| - 1].cells)
  }

  lemma {:induction false} InkOn(a: seq<Cluster>, b: seq<Cluster>)
    ensures Ink(a + b) == Ink(a) + Ink(b)
  {
    if b == [] {
      assert a + b == a;
    } else {
      assert (a + b)[..|a + b| - 1] == a + b[..|b| - 1];
      InkOn(a, b[..|b| - 1]);
    }
  }

  lemma {:induction false} InkOfGlyphs(s: seq<Cluster>)
    requires AllGlyphs(s)
    ensures Ink(s) == s
  {
    if s != [] {
      InkOfGlyphs(s[..|s| - 1]);
      assert s == s[..|s| - 1] + [s[|s| - 1]];
    }
  }

  lemma {:induction false} TokensOn(a: seq<Token>, b: seq<Token>)
    ensures InkOfTokens(a + b) == InkOfTokens(a) + InkOfTokens(b)
  {
    if b == [] {
      assert a + b == a;
    } else {
      assert (a + b)[..|a + b| - 1] == a + b[..|b| - 1];
      TokensOn(a, b[..|b| - 1]);
    }
  }

  lemma {:induction false} InkOfWrapped(word: seq<Cluster>, width: nat)
    requires width > 0
    ensures InkOfTokens(Wrapped(word, width)) == word
    decreases |word|
  {
    if word != [] && |word| <= width {
      InkOfOne(Text(word));
    } else if word != [] {
      InkOfWrapped(word[width..], width);
      TokensOn([Word(Text(word[..width]))], Wrapped(word[width..], width));
      InkOfOne(Text(word[..width]));
      assert word == word[..width] + word[width..];
    }
  }

  lemma InkOfOne(t: Text)
    ensures InkOfTokens([Word(t)]) == t.cells
  {
    assert [Word(t)][..0] == [];
  }

  lemma InkOfClosed(s: Scanned, width: nat)
    requires width > 0
    ensures InkOfTokens(Closed(s, width)) == InkOfTokens(s.tokens) + s.open
  {
    TokensOn(s.tokens, Wrapped(s.open, width));
    InkOfWrapped(s.open, width);
  }

  lemma BreakHasNoInk(ts: seq<Token>)
    ensures InkOfTokens(ts + [Break]) == InkOfTokens(ts)
  {
    assert (ts + [Break])[..|ts|] == ts;
  }

  /** One more cluster adds its ink, if it has any. */
  lemma InkOfAfter(s: Scanned, x: Cluster, width: nat)
    requires width > 0 && AllGlyphs(s.open)
    ensures var t := After(s, x, width);
            AllGlyphs(t.open) && InkOfTokens(t.tokens) + t.open == InkOfTokens(s.tokens) + s.open + (if x.Glyph? then [x] else [])
  {
    match x
    case Newline =>
      InkOfClosed(s, width);
      BreakHasNoInk(Closed(s, width));
    case Space => InkOfClosed(s, width);
    case Glyph(_) =>
  }

  lemma {:induction false} InkOfScan(body: seq<Cluster>, width: nat)
    requires width > 0
    ensures var s := Scan(body, width); InkOfTokens(s.tokens) + s.open == Ink(body) && AllGlyphs(s.open)
  {
    if body != [] {
      var front := body[..|body| - 1];
      InkOfScan(front, width);
      InkOfAfter(Scan(front, width), body[|body| - 1], width);
    }
  }

  lemma InkOfJoined(front: seq<Text>, last: Text)
    requires AllGlyphs(last.cells)
    ensures Ink(Joined(front + [last])) == Ink(Joined(front)) + last.cells
  {
    JoinedPush(front, last);
    InkOfGlyphs(last.cells);
    if front != [] {
      InkOn(Joined(front) + [Space], last.cells);
      InkOn(Joined(front), [Space]);
      assert [Space][..0] == [];
    }
  }

  lemma {:induction false} InkOfRow(pieces: seq<Text>, width: nat)
    requires forall i :: 0 <= i < |pieces| ==> IsPiece(pieces[i], width)
    ensures Ink(Joined(pieces)) == InkOfTokens(Words(pieces))
    decreases |pieces|
  {
    if pieces != [] {
      var front, last := pieces[..|pieces| - 1], pieces[|pieces| - 1];
      assert IsPiece(last, width) && pieces == front + [last];
      InkOfRow(front, width);
      InkOfJoined(front, last);
      TokensOn(Words(front), [Word(last)]);
      InkOfOne(last);
    }
  }

  lemma {:induction false} InkOfRows(lines: seq<Text>, rows: seq<Row>, width: nat)
    requires Rendered(lines, rows) && forall i :: 0 <= i < |rows| ==> RowOk(rows[i].pieces, width)
    ensures InkOfLines(lines) == InkOfTokens(Said(rows))
  {
    if rows != [] {
      var front, r := rows[..|rows| - 1], rows[|rows| - 1];
      InkOfRows(lines[..|lines| - 1], front, width);
      InkOfRow(r.pieces, width);
      TokensOn(Said(front) + Words(r.pieces), if r.hard then [Break] else []);
      TokensOn(Said(front), Words(r.pieces));
      assert [Break][..0] == [];
    }
  }

  /** Line breaking preserves text: every cluster but spaces and newlines appears once, in order. */
  lemma TextIsPreserved(body: seq<Cluster>, width: nat, lines: seq<Text>, rows: seq<Row>)
    requires width > 0 && Rendered(lines, rows) && RowsOk(rows, width) && Said(rows) == Tokens(body, width)
    ensures InkOfLines(lines) == Ink(body)
    ensures forall i :: 0 <= i < |lines| ==> |lines[i].cells| <= width
    ensures forall i :: 0 <= i < |lines| ==> var s := lines[i].cells; s != [] ==> s[0].Glyph? && s[|s| - 1].Glyph?
  {
    InkOfRows(lines, rows, width);
    InkOfScan(body, width);
    InkOfClosed(Scan(body, width), width);
    forall i | 0 <= i < |lines|
      ensures var t := lines[i].cells; |t| <= width && (t != [] ==> t[0].Glyph? && t[|t| - 1].Glyph?)
    {
      LineEnds(rows[i].pieces, width);
    }
  }

  // ---------------------------------------------------------------- pages

  datatype Page = Page(lines: seq<Text>)

  function LinesOf(pages: seq<Page>): seq<Text>
  {
    if pages == [] then [] else LinesOf(pages[..|pages| - 1]) + pages[|pages| - 1].lines
  }

  /** At most `n` lines a page, and only the last may hold fewer. */
  predicate PagesOk(pages: seq<Page>, n: nat)
  {
    && (forall k :: 0 <= k < |pages| ==> 0 < |pages[k].lines| <= n)
    && (forall k :: 0 <= k < |pages| - 1 ==> |pages[k].lines| == n)
  }

  predicate FullPages(pages: seq<Page>, n: nat)
  {
    forall k :: 0 <= k < |pages| ==> |pages[k].lines| == n
  }

  /** One more page behind full ones. */
  lemma PagesPush(pages: seq<Page>, lines: seq<Text>, n: nat)
    requires FullPages(pages, n) && 0 < |lines| <= n
    ensures var more := pages + [Page(lines)];
            PagesOk(more, n) && LinesOf(more) == LinesOf(pages) + lines && (|lines| == n ==> FullPages(more, n))
  {
    assert (pages + [Page(lines)])[..|pages|] == pages;
  }

  /** layout.cpp:224-232. */
  method Pages(all: seq<Text>, n: nat) returns (pages: seq<Page>)
    requires n > 0
    ensures PagesOk(pages, n) && LinesOf(pages) == all
  {
    pages := [];
    var i := 0;
    while i < |all|
      invariant i < |all| ==> LinesOf(pages) == all[..i] && FullPages(pages, n)
      invariant i >= |all| ==> LinesOf(pages) == all && PagesOk(pages, n)
    {
      var end := if |all| < i + n then |all| else i + n;
      PagesPush(pages, all[i..end], n);
      assert all[..i] + all[i..end] == all[..end];
      assert all[..|all|] == all;
      pages := pages + [Page(all[i..end])];
      i := i + n;
    }
  }

  /** layout.cpp:212-233: put together, the pages are the lines again; an empty letter is one blank page. */
  method Paginate(body: seq<Cluster>, charsPerLine: int, linesPerPage: int)
    returns (pages: seq<Page>, ghost rows: seq<Row>)
    ensures charsPerLine <= 0 || linesPerPage <= 0 <==> pages == []
    ensures pages != [] ==> Rendered(LinesOf(pages), rows) && RowsOk(rows, charsPerLine) && Said(rows) == Tokens(body, charsPerLine)
    ensures body != [] && pages != [] ==> PagesOk(pages, linesPerPage)
    ensures body == [] && pages != [] ==> pages == [Page([])]
  {
    pages, rows := [], [];
    if charsPerLine <= 0 || linesPerPage <= 0 {
      return;
    }
    var lines;
    lines, rows := BreakLines(body, charsPerLine);
    if lines == [] {
      pages := [Page([])];
      assert pages[..0] == [];
      return;
    }
    pages := Pages(lines, linesPerPage);
  }
}
