/**
 * The balanced scan that finds the `;` ending a field statement which may span
 * several lines (test/debug-findend.js, lines 12-71).
 *
 * From a start line and column, the characters are visited line by line. A
 * quote character (`"`, `'` or a backtick) opens a string when none is open;
 * the same character closes it unless the character before it on the same line
 * is a backslash. Outside strings, `{`/`}` and `[`/`]` move a brace and a bracket
 * counter; nothing ever moves the paren counter. The first `;` seen outside a
 * string while all three counters are exactly zero ends the statement.
 */
module FieldEnd {
  import opened Wrappers

  /** The scan's variables: the three counters and the open string's delimiter. */
  datatype ScanState = ScanState(braces: int, brackets: int, parens: int, quote: Option<char>)

  const Initial := ScanState(0, 0, 0, None)

  predicate IsQuote(c: char) {
    c == '"' || c == '\'' || c == '`'
  }

  /** The scan only ever opens a string on a quote character. */
  predicate Valid(st: ScanState) {
    st.quote.Some? ==> IsQuote(st.quote.value)
  }

  /** The string state after `ch` (lines 30-39). `prev` is the character before
      `ch` on the same line, `None` at column 0. */
  function QuoteAfter(quote: Option<char>, ch: char, prev: Option<char>): (q: Option<char>)
    ensures q.Some? && quote.None? ==> q == Some(ch) && IsQuote(ch)
    ensures q.None? && quote.Some? ==> ch == quote.value && prev != Some('\\')
    ensures quote.Some? && q.Some? ==> q == quote
    ensures quote.None? ==> (q.Some? <==> IsQuote(ch))
    ensures quote.Some? ==> (q.None? <==> ch == quote.value && prev != Some('\\'))
  {
    if quote.None? && IsQuote(ch) then Some(ch)
    else if quote.Some? && ch == quote.value && prev != Some('\\') then None
    else quote
  }

  /** One character (lines 27-67): the string state moves first; then, outside a
      string, a brace or bracket moves its counter. */
  function Step(st: ScanState, ch: char, prev: Option<char>): (st': ScanState)
    ensures st'.quote == QuoteAfter(st.quote, ch, prev)
    ensures Valid(st) ==> Valid(st')
    ensures st'.parens == st.parens
    ensures Valid(st) && (st.quote.Some? || st'.quote.Some?) ==> st'.braces == st.braces && st'.brackets == st.brackets
    ensures st'.braces != st.braces ==> (ch == '{' && st'.braces == st.braces + 1) || (ch == '}' && st'.braces == st.braces - 1)
    ensures st'.brackets != st.brackets ==> (ch == '[' && st'.brackets == st.brackets + 1) || (ch == ']' && st'.brackets == st.brackets - 1)
    ensures st'.quote.None? && ch == '{' ==> st'.braces == st.braces + 1
    ensures st'.quote.None? && ch == '}' ==> st'.braces == st.braces - 1
    ensures st'.quote.None? && ch == '[' ==> st'.brackets == st.brackets + 1
    ensures st'.quote.None? && ch == ']' ==> st'.brackets == st.brackets - 1
  {
    var q := QuoteAfter(st.quote, ch, prev);
    if q.Some? then st.(quote := q)
    else if ch == '{' then st.(braces := st.braces + 1, quote := q)
    else if ch == '}' then st.(braces := st.braces - 1, quote := q)
    else if ch == '[' then st.(brackets := st.brackets + 1, quote := q)
    else if ch == ']' then st.(brackets := st.brackets - 1, quote := q)
    else st.(quote := q)
  }

  /** Lines 59-64: `ch`, leaving the scan in state `st`, ends the statement. */
  predicate IsEnd(st: ScanState, ch: char) {
    st.quote.None? && ch == ';' && st.braces == 0 && st.brackets == 0 && st.parens == 0
  }

  function PrevOnLine(line: string, c: nat): Option<char>
    requires c <= |line|
  {
    if c > 0 then Some(line[c - 1]) else None
  }

  datatype ScanResult = NotFound | Found(line: nat, col: nat)

  /** Position `(l', c')` is a character the scan from `(l, c)` visits: on the start
      line from column `c` on, and on every later line from column 0. */
  predicate InRange(lines: seq<string>, l: nat, c: nat, l': nat, c': nat) {
    l' < |lines| && c' < |lines[l']| && ((l' == l && c <= c') || l < l')
  }

  /** The nested loops of lines 21-69 from line `l`, column `c`, in state `st`. */
  function ScanFrom(lines: seq<string>, l: nat, c: nat, st: ScanState): (r: ScanResult)
    ensures r.Found? ==> InRange(lines, l, c, r.line, r.col) && lines[r.line][r.col] == ';'
    decreases |lines| - l, if l < |lines| && c < |lines[l]| then |lines[l]| - c else 0
  {
    if l >= |lines| then NotFound
    else if c >= |lines[l]| then ScanFrom(lines, l + 1, 0, st)
    else
      var ch := lines[l][c];
      var st' := Step(st, ch, PrevOnLine(lines[l], c));
      if IsEnd(st', ch) then Found(l, c) else ScanFrom(lines, l, c + 1, st')
  }

  /** The scan as the script runs it: from the start position, in the initial state. */
  function FindEnd(lines: seq<string>, sl: nat, sc: nat): ScanResult {
    ScanFrom(lines, sl, sc, Initial)
  }

  /** The script's loops over its own variables (`braceCount`, `bracketCount`,
      `parenCount`, `inString`, `stringChar`). */
  method FindFieldEnd(lines: seq<string>, sl: nat, sc: nat) returns (r: ScanResult)
    ensures r == FindEnd(lines, sl, sc)
  {
    var braceCount, bracketCount, parenCount := 0, 0, 0;
    var inString, stringChar := false, ' ';
    var lineIndex := sl;
    while lineIndex < |lines|
      invariant sl <= lineIndex
      invariant FindEnd(lines, sl, sc) ==
        ScanFrom(lines, lineIndex, if lineIndex == sl then sc else 0,
                 ScanState(braceCount, bracketCount, parenCount, if inString then Some(stringChar) else None))
      decreases |lines| - lineIndex
    {
      var line := lines[lineIndex];
      var charIndex := if lineIndex == sl then sc else 0;
      while charIndex < |line|
        invariant FindEnd(lines, sl, sc) ==
          ScanFrom(lines, lineIndex, charIndex,
                   ScanState(braceCount, bracketCount, parenCount, if inString then Some(stringChar) else None))
        decreases |line| - charIndex
      {
        var ch := line[charIndex];
        if !inString && (ch == '"' || ch == '\'' || ch == '`') {
          inString, stringChar := true, ch;
        } else if inString && ch == stringChar {
          var prevIsBackslash := charIndex > 0 && line[charIndex - 1] == '\\';
          if !prevIsBackslash {
            inString := false;
          }
        }
        if !inString {
          if ch == '{' {
            braceCount := braceCount + 1;
          } else if ch == '}' {
            braceCount := braceCount - 1;
          } else if ch == '[' {
            bracketCount := bracketCount + 1;
          } else if ch == ']' {
            bracketCount := bracketCount - 1;
          } else if ch == ';' && braceCount == 0 && bracketCount == 0 && parenCount == 0 {
            return Found(lineIndex, charIndex);
          }
        }
        charIndex := charIndex + 1;
      }
      lineIndex := lineIndex + 1;
    }
    return NotFound;
  }

  /** One visited character: where it is, what it is, and what precedes it on its
      line. */
  datatype Cell = Cell(line: nat, col: nat, ch: char, prev: Option<char>)

  /** The characters the scan from `(l, c)` visits, in visiting order. */
  function CellsFrom(lines: seq<string>, l: nat, c: nat): seq<Cell>
    decreases |lines| - l, if l < |lines| && c < |lines[l]| then |lines[l]| - c else 0
  {
    if l >= |lines| then []
    else if c >= |lines[l]| then CellsFrom(lines, l + 1, 0)
    else [Cell(l, c, lines[l][c], PrevOnLine(lines[l], c))] + CellsFrom(lines, l, c + 1)
  }

  predicate Before(a: Cell, b: Cell) {
    a.line < b.line || (a.line == b.line && a.col < b.col)
  }

  /** The cell for position `(l', c')`. */
  predicate CellAt(lines: seq<string>, x: Cell, l': nat, c': nat)
    requires l' < |lines| && c' < |lines[l']|
  {
    x == Cell(l', c', lines[l'][c'], PrevOnLine(lines[l'], c'))
  }

  /** The visited characters are exactly the positions in range, each once, in
      line-then-column order, each with its own character and predecessor. */
  lemma {:induction false} CellsFromVisitsRange(lines: seq<string>, l: nat, c: nat)
    ensures var cells := CellsFrom(lines, l, c);
      && (forall i :: 0 <= i < |cells| ==>
            InRange(lines, l, c, cells[i].line, cells[i].col) && CellAt(lines, cells[i], cells[i].line, cells[i].col))
      && (forall i, j :: 0 <= i < j < |cells| ==> Before(cells[i], cells[j]))
      && (forall l', c' :: InRange(lines, l, c, l', c') ==>
            exists i :: 0 <= i < |cells| && cells[i].line == l' && cells[i].col == c')
    decreases |lines| - l, if l < |lines| && c < |lines[l]| then |lines[l]| - c else 0
  {
    var cells := CellsFrom(lines, l, c);
    if l >= |lines| {
    } else if c >= |lines[l]| {
      CellsFromVisitsRange(lines, l + 1, 0);
      assert cells == CellsFrom(lines, l + 1, 0);
      forall i | 0 <= i < |cells| ensures InRange(lines, l, c, cells[i].line, cells[i].col) {
        assert InRange(lines, l + 1, 0, cells[i].line, cells[i].col);
      }
      forall l', c' | InRange(lines, l, c, l', c')
        ensures InRange(lines, l + 1, 0, l', c')
      {
      }
    } else {
      var rest := CellsFrom(lines, l, c + 1);
      CellsFromVisitsRange(lines, l, c + 1);
      assert cells == [cells[0]] + rest;
      forall i | 1 <= i < |cells| ensures cells[i] == rest[i - 1] { }
      forall l', c' | InRange(lines, l, c, l', c')
        ensures exists i :: 0 <= i < |cells| && cells[i].line == l' && cells[i].col == c'
      {
        if l' == l && c' == c {
          assert cells[0].line == l' && cells[0].col == c';
        } else {
          assert InRange(lines, l, c + 1, l', c');
          var i :| 0 <= i < |rest| && rest[i].line == l' && rest[i].col == c';
          assert cells[i + 1] == rest[i];
        }
      }
    }
  }

  /** The state after scanning `cells` from `st`. */
  function Fold(cells: seq<Cell>, st: ScanState): ScanState {
    if cells == [] then st else Fold(cells[1..], Step(st, cells[0].ch, cells[0].prev))
  }

  /** The scan over the flattened cells: the first cell that ends the statement. */
  function Scan(cells: seq<Cell>, st: ScanState): ScanResult {
    if cells == [] then NotFound
    else
      var st' := Step(st, cells[0].ch, cells[0].prev);
      if IsEnd(st', cells[0].ch) then Found(cells[0].line, cells[0].col) else Scan(cells[1..], st')
  }

  /** The nested loops visit the cells in order and stop at the same place. */
  lemma {:induction false} ScanFromIsScan(lines: seq<string>, l: nat, c: nat, st: ScanState)
    ensures ScanFrom(lines, l, c, st) == Scan(CellsFrom(lines, l, c), st)
    decreases |lines| - l, if l < |lines| && c < |lines[l]| then |lines[l]| - c else 0
  {
    if l < |lines| {
      if c >= |lines[l]| {
        ScanFromIsScan(lines, l + 1, 0, st);
      } else {
        var cells := CellsFrom(lines, l, c);
        assert cells[1..] == CellsFrom(lines, l, c + 1);
        ScanFromIsScan(lines, l, c + 1, Step(st, lines[l][c], PrevOnLine(lines[l], c)));
      }
    }
  }

  /** Cell `i` ends the statement, given the state the scan started in. */
  ghost predicate EndsAt(cells: seq<Cell>, st: ScanState, i: int) {
    0 <= i < |cells| && IsEnd(Fold(cells[..i + 1], st), cells[i].ch)
  }

  lemma EndsAtShift(cells: seq<Cell>, st: ScanState, i: int)
    requires 1 <= i < |cells|
    ensures EndsAt(cells, st, i) == EndsAt(cells[1..], Step(st, cells[0].ch, cells[0].prev), i - 1)
  {
    assert cells[..i + 1][1..] == cells[1..][..i];
  }

  lemma EndsAtFirst(cells: seq<Cell>, st: ScanState)
    requires cells != []
    ensures EndsAt(cells, st, 0) == IsEnd(Step(st, cells[0].ch, cells[0].prev), cells[0].ch)
  {
    var one := cells[..1];
    assert one[0] == cells[0] && one[1..] == [];
    assert Fold(one, st) == Fold([], Step(st, cells[0].ch, cells[0].prev));
  }

  /** The scan reports nothing exactly when no cell ends the statement. */
  lemma {:induction false} ScanNotFound(cells: seq<Cell>, st: ScanState)
    ensures Scan(cells, st) == NotFound <==> forall i :: 0 <= i < |cells| ==> !EndsAt(cells, st, i)
  {
    if cells != [] {
      var st' := Step(st, cells[0].ch, cells[0].prev);
      var rest := cells[1..];
      EndsAtFirst(cells, st);
      ScanNotFound(rest, st');
      forall i | 1 <= i < |cells| ensures EndsAt(cells, st, i) == EndsAt(rest, st', i - 1) {
        EndsAtShift(cells, st, i);
      }
      if IsEnd(st', cells[0].ch) {
        assert EndsAt(cells, st, 0);
      } else if Scan(rest, st') == NotFound {
        forall i | 0 <= i < |cells| ensures !EndsAt(cells, st, i) {
          if i > 0 {
            assert !EndsAt(rest, st', i - 1);
          }
        }
      } else {
        var j :| 0 <= j < |rest| && EndsAt(rest, st', j);
        assert EndsAt(cells, st, j + 1);
      }
    }
  }

  /** The scan reports the first cell that ends the statement. */
  lemma {:induction false} ScanFindsFirstEnd(cells: seq<Cell>, st: ScanState, i: int)
    requires EndsAt(cells, st, i)
    requires forall j :: 0 <= j < i ==> !EndsAt(cells, st, j)
    ensures Scan(cells, st) == Found(cells[i].line, cells[i].col)
  {
    var st' := Step(st, cells[0].ch, cells[0].prev);
    EndsAtFirst(cells, st);
    if i > 0 {
      EndsAtShift(cells, st, i);
      forall j | 0 <= j < i - 1 ensures !EndsAt(cells[1..], st', j) {
        EndsAtShift(cells, st, j + 1);
      }
      ScanFindsFirstEnd(cells[1..], st', i - 1);
    }
  }

  /** The script's answer, stated over the characters it visits: nothing when no
      visited character ends the statement, and otherwise the first one that does. */
  lemma FindEndIsFirstEnd(lines: seq<string>, sl: nat, sc: nat, i: int)
    ensures var cells := CellsFrom(lines, sl, sc);
      FindEnd(lines, sl, sc) == NotFound <==> forall j :: 0 <= j < |cells| ==> !EndsAt(cells, Initial, j)
    ensures var cells := CellsFrom(lines, sl, sc);
      EndsAt(cells, Initial, i) && (forall j :: 0 <= j < i ==> !EndsAt(cells, Initial, j)) ==>
        FindEnd(lines, sl, sc) == Found(cells[i].line, cells[i].col)
  {
    var cells := CellsFrom(lines, sl, sc);
    ScanFromIsScan(lines, sl, sc, Initial);
    ScanNotFound(cells, Initial);
    if EndsAt(cells, Initial, i) && (forall j :: 0 <= j < i ==> !EndsAt(cells, Initial, j)) {
      ScanFindsFirstEnd(cells, Initial, i);
    }
  }

  /** No character changes the paren counter, so it stays at zero. */
  lemma {:induction false} ParensStayZero(cells: seq<Cell>, st: ScanState)
    ensures Fold(cells, st).parens == st.parens
  {
    if cells != [] {
      ParensStayZero(cells[1..], Step(st, cells[0].ch, cells[0].prev));
    }
  }

  /** A run of characters inside one string leaves both counters where they were. */
  lemma {:induction false} StringContentsKeepDepths(cells: seq<Cell>, st: ScanState)
    requires forall k :: 0 <= k <= |cells| ==> Fold(cells[..k], st).quote.Some?
    ensures Fold(cells, st).braces == st.braces && Fold(cells, st).brackets == st.brackets
  {
    if cells != [] {
      var st' := Step(st, cells[0].ch, cells[0].prev);
      assert cells[..0] == [];
      assert Fold(cells[..1], st) == st' by { assert cells[..1][1..] == []; }
      forall k | 0 <= k <= |cells[1..]| ensures Fold(cells[1..][..k], st').quote.Some? {
        assert cells[..k + 1][1..] == cells[1..][..k];
      }
      StringContentsKeepDepths(cells[1..], st');
    }
  }

  /** The sample of lines 2-6, from line 0, column 3: the `;` after `}]` on line 2
      ends the statement, once both the `[` and the `{` have closed. */
  lemma SampleEndsOnLastLine(lines: seq<string>)
    requires lines == ["\ta = [{", "\t\ttest: 123", "\t}];"]
    ensures FindEnd(lines, 0, 3) == Found(2, 3)
  {
    var s1 := ScanState(0, 1, 0, None);
    var s2 := ScanState(1, 1, 0, None);
    assert ScanFrom(lines, 0, 3, Initial) == ScanFrom(lines, 0, 5, Initial);
    assert ScanFrom(lines, 0, 5, Initial) == ScanFrom(lines, 0, 6, s1);
    assert ScanFrom(lines, 0, 6, s1) == ScanFrom(lines, 0, 7, s2);
    assert ScanFrom(lines, 0, 7, s2) == ScanFrom(lines, 1, 0, s2);
    NoBracketsNoQuotes(lines, 1, 0, s2);
    var s3 := ScanState(0, 1, 0, None);
    var s4 := ScanState(0, 0, 0, None);
    assert ScanFrom(lines, 2, 0, s2) == ScanFrom(lines, 2, 2, s3);
    assert ScanFrom(lines, 2, 2, s3) == ScanFrom(lines, 2, 3, s4);
  }

  /** A line without quotes, braces, brackets or `;` leaves the state as it is. */
  lemma {:induction false} NoBracketsNoQuotes(lines: seq<string>, l: nat, c: nat, st: ScanState)
    requires l < |lines| && st.quote.None?
    requires forall k :: c <= k < |lines[l]| ==> lines[l][k] !in "\"'`{}[];"
    ensures ScanFrom(lines, l, c, st) == ScanFrom(lines, l + 1, 0, st)
    decreases |lines[l]| - c
  {
    if c < |lines[l]| {
      var ch := lines[l][c];
      assert ch !in "\"'`{}[];";
      assert Step(st, ch, PrevOnLine(lines[l], c)) == st;
      NoBracketsNoQuotes(lines, l, c + 1, st);
    }
  }

  /** The counters are not clamped at zero: a stray `}` leaves the brace counter at
      -1, and the `;` after it is not an end. */
  lemma StrayCloserHidesEnd(lines: seq<string>)
    requires lines == ["a = };"]
    ensures FindEnd(lines, 0, 3) == NotFound
  {
    var s := ScanState(-1, 0, 0, None);
    assert ScanFrom(lines, 0, 3, Initial) == ScanFrom(lines, 0, 5, s);
  }

  /** The string state carries over a line break: the `;` inside the string opened
      on line 0 is not an end; the one after the string closes on line 1 is. */
  lemma StringSpansLines(lines: seq<string>)
    requires lines == ["s = 'a;", "b';"]
    ensures FindEnd(lines, 0, 2) == Found(1, 2)
  {
    var q := ScanState(0, 0, 0, Some('\''));
    assert ScanFrom(lines, 0, 2, Initial) == ScanFrom(lines, 0, 4, Initial);
    assert ScanFrom(lines, 0, 4, Initial) == ScanFrom(lines, 0, 5, q);
    assert ScanFrom(lines, 0, 5, q) == ScanFrom(lines, 0, 7, q);
    assert ScanFrom(lines, 0, 7, q) == ScanFrom(lines, 1, 0, q);
    assert ScanFrom(lines, 1, 0, q) == ScanFrom(lines, 1, 1, q);
    assert ScanFrom(lines, 1, 1, q) == ScanFrom(lines, 1, 2, Initial);
  }

  /** A quote preceded by a backslash on its line does not close the string. */
  lemma EscapedQuoteStaysOpen(lines: seq<string>)
    requires lines == ["x = 'a\\';", "';"]
    ensures FindEnd(lines, 0, 2) == Found(1, 1)
  {
    var q := ScanState(0, 0, 0, Some('\''));
    assert ScanFrom(lines, 0, 2, Initial) == ScanFrom(lines, 0, 4, Initial);
    assert ScanFrom(lines, 0, 4, Initial) == ScanFrom(lines, 0, 5, q);
    assert ScanFrom(lines, 0, 5, q) == ScanFrom(lines, 0, 7, q);
    assert ScanFrom(lines, 0, 7, q) == ScanFrom(lines, 0, 9, q);
    assert ScanFrom(lines, 0, 9, q) == ScanFrom(lines, 1, 0, q);
    assert ScanFrom(lines, 1, 0, q) == ScanFrom(lines, 1, 1, Initial);
  }
}
