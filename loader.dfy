/**
 * The RLE pattern decoder of src/loader.rs. A pattern text is: leading `#`
 * comment lines, a header `x = W, y = H` whose line may carry more (such as
 * `, rule = B3/S23`), then the data: runs `<count>?(b|o)` with `$` between
 * rows. The text is decoded as the code does it, not as the format is
 * usually described: `!` and any other unknown tag only end the row they
 * are in, a malformed header or a run count beyond 32 bits makes the whole
 * decode fail, and the declared width and height are not compared with the
 * cells.
 */
module Loader {
  import opened Grid
  import opened Automaton

  datatype Option<T> = None | Some(value: T)

  /** The largest value of an unsigned 32-bit integer; header numbers and run counts are parsed as such. */
  const U32_MAX: nat := 0xFFFF_FFFF

  // ---------------------------------------------------------------------
  // Characters and decimal numbers
  // ---------------------------------------------------------------------

  /** The characters skipped around whitespace-separated tokens. */
  predicate IsSpace(c: char)
  {
    c == ' ' || c == '\t' || c == '\r' || c == '\n'
  }

  predicate IsDigit(c: char)
  {
    '0' <= c <= '9'
  }

  predicate AllDigits(s: string)
  {
    forall i :: 0 <= i < |s| ==> IsDigit(s[i])
  }

  /** True when s is made of whitespace only. */
  predicate Blanks(s: string)
  {
    forall i :: 0 <= i < |s| ==> IsSpace(s[i])
  }

  /** The whitespace-free remainder of s: its longest suffix not starting with whitespace. */
  function SkipSpace(s: string): (r: string)
    ensures |r| <= |s|
    ensures r == [] || !IsSpace(r[0])
  {
    if s != [] && IsSpace(s[0]) then SkipSpace(s[1..]) else s
  }

  /** What SkipSpace drops is whitespace only, and what it keeps is the rest of s. */
  lemma {:induction false} SkipSpaceSplit(s: string, r: string)
    requires SkipSpace(s) == r
    ensures IsSuffix(r, s)
    ensures forall i :: 0 <= i < |s| - |r| ==> IsSpace(s[i])
  {
    if s != [] && IsSpace(s[0]) {
      var t := s[1..];
      SkipSpaceSplit(t, r);
      assert s == [s[0]] + t;
      assert t[|t| - |r|..] == s[|s| - |r|..];
      forall i | 0 <= i < |s| - |r|
        ensures IsSpace(s[i])
      {
        if i > 0 {
          assert s[i] == t[i - 1];
        }
      }
    }
  }

  /** The text after the first line feed of s (a `\r\n` ending also ends there), or None when s has no line feed. */
  function AfterLineEnd(s: string): (r: Option<string>)
    ensures r.Some? <==> '\n' in s
    ensures r.Some? ==> |r.value| < |s|
  {
    if s == [] then None
    else if s[0] == '\n' then Some(s[1..])
    else
      var r := AfterLineEnd(s[1..]);
      assert s == [s[0]] + s[1..];
      r
  }

  /** The text AfterLineEnd returns follows the first line feed of s. */
  lemma {:induction false} AfterLineEndSplit(s: string, t: string)
    requires AfterLineEnd(s) == Some(t)
    ensures IsSuffix(t, s) && s[|s| - |t| - 1] == '\n'
    ensures forall i :: 0 <= i < |s| - |t| - 1 ==> s[i] != '\n'
  {
    if s[0] != '\n' {
      AfterLineEndSplit(s[1..], t);
    }
  }

  /** The longest prefix of s made of decimal digits. */
  function Digits(s: string): (r: string)
    ensures |r| <= |s| && r == s[..|r|]
    ensures AllDigits(r)
    ensures |r| == |s| || !IsDigit(s[|r|])
  {
    if s != [] && IsDigit(s[0]) then [s[0]] + Digits(s[1..]) else []
  }

  function DigitValue(c: char): nat
    requires IsDigit(c)
  {
    (c as int - '0' as int) as nat
  }

  /** The value of a string of decimal digits (leading zeros allowed). */
  function DecimalValue(ds: string): nat
    requires AllDigits(ds)
  {
    if ds == [] then 0
    else DecimalValue(ds[..|ds| - 1]) * 10 + DigitValue(ds[|ds| - 1])
  }

  /** The decimal spelling of n, without leading zeros. */
  function Decimal(n: nat): (r: string)
    ensures r != [] && AllDigits(r)
  {
    var d := ['0' + (n % 10) as char];
    if n < 10 then d else Decimal(n / 10) + d
  }

  /** Reading back a decimal spelling gives the number. */
  lemma {:induction false} DecimalRoundTrip(n: nat)
    ensures DecimalValue(Decimal(n)) == n
  {
    var d := ['0' + (n % 10) as char];
    if n >= 10 {
      DecimalRoundTrip(n / 10);
      var ds := Decimal(n / 10) + d;
      assert ds[..|ds| - 1] == Decimal(n / 10);
    }
  }

  /** The digits of a digit string followed by a non-digit are that digit string. */
  lemma {:induction false} DigitsOfNumber(ds: string, t: string)
    requires AllDigits(ds)
    requires t == [] || !IsDigit(t[0])
    ensures Digits(ds + t) == ds
  {
    if ds != [] {
      assert (ds + t)[1..] == ds[1..] + t;
      DigitsOfNumber(ds[1..], t);
      assert ds == [ds[0]] + ds[1..];
    }
  }

  /**
   * Reads a number as the header does: one or more digits whose value fits
   * in 32 bits; returns the value and the text after the digits.
   */
  function ParseNumber(s: string): (r: Option<(nat, string)>)
    ensures r.Some? ==> r.value.0 <= U32_MAX && |r.value.1| < |s|
  {
    var ds := Digits(s);
    if ds == [] then None
    else if DecimalValue(ds) > U32_MAX then None
    else Some((DecimalValue(ds), s[|ds|..]))
  }

  // ---------------------------------------------------------------------
  // Comments and header
  // ---------------------------------------------------------------------

  /**
   * Skips the leading comment lines. A comment is `#` after optional
   * whitespace; it runs to the end of its line, except that whitespace
   * right after `#` is skipped first, line feeds included, so a `#` with
   * nothing after it on its line swallows the following line. The text
   * is returned unchanged from the first line that is not a comment; a
   * comment without a line end fails.
   */
  function SkipComments(s: string): (r: Option<string>)
    ensures r.Some? ==> var b := SkipSpace(r.value); b == [] || b[0] != '#'
    ensures r.Some? ==> IsSuffix(r.value, s)
    decreases |s|
  {
    var b := SkipSpace(s);
    if b == [] || b[0] != '#' then Some(s)
    else
      var c := SkipSpace(b[1..]);
      match AfterLineEnd(c)
      case None => None
      case Some(t) =>
        CommentSuffix(s, b, c, t);
        SkipComments(t)
  }

  /** The text after a comment line is a tail of the text before it. */
  lemma CommentSuffix(s: string, b: string, c: string, t: string)
    requires b == SkipSpace(s) && b != [] && c == SkipSpace(b[1..])
    requires AfterLineEnd(c) == Some(t)
    ensures IsSuffix(t, s)
  {
    SkipSpaceSplit(s, b);
    SkipSpaceSplit(b[1..], c);
    AfterLineEndSplit(c, t);
    SuffixOfSuffix(t, c, b[1..]);
    SuffixOfSuffix(t, b[1..], b);
    SuffixOfSuffix(t, b, s);
  }

  /** True when t is a tail of s. */
  predicate IsSuffix(t: string, s: string)
  {
    |t| <= |s| && t == s[|s| - |t|..]
  }

  lemma SuffixOfSuffix(t: string, u: string, s: string)
    requires IsSuffix(t, u) && IsSuffix(u, s)
    ensures IsSuffix(t, s)
  {
    assert s[|s| - |t|..] == s[|s| - |u|..][|u| - |t|..];
  }

  /** The header's content: declared width and height, and the data after the header line. */
  datatype Header = Header(width: nat, height: nat, data: string)

  /** True when s starts with the literal lit. */
  predicate StartsWith(s: string, lit: string)
  {
    |lit| <= |s| && s[..|lit|] == lit
  }

  /**
   * Reads one dimension of the header: the literal `name` with whitespace
   * (line feeds included) skipped before and after it, then a number.
   */
  function ParseDimension(s: string, name: string): (r: Option<(nat, string)>)
    ensures r.Some? ==> r.value.0 <= U32_MAX
  {
    var a := SkipSpace(s);
    if !StartsWith(a, name) then None
    else ParseNumber(SkipSpace(a[|name|..]))
  }

  /**
   * Parses `x =` and a number, `,` immediately after it, `y =` and a
   * number, and the rest of that line, which is ignored.
   */
  function ParseHeader(s: string): (r: Option<Header>)
    ensures r.Some? ==> r.value.width <= U32_MAX && r.value.height <= U32_MAX
    ensures !StartsWith(SkipSpace(s), "x =") ==> r.None?
  {
    match ParseDimension(s, "x =")
    case None => None
    case Some((x, b)) =>
      if !StartsWith(b, ",") then None
      else
        match ParseDimension(b[1..], "y =")
        case None => None
        case Some((y, d)) =>
          match AfterLineEnd(d)
          case None => None
          case Some(data) => Some(Header(x, y, data))
  }

  // ---------------------------------------------------------------------
  // Data section
  // ---------------------------------------------------------------------

  /** Removes every `\r\n` pair, scanning left to right. */
  function RemoveCrLf(s: string): (r: string)
    ensures |r| <= |s|
  {
    if |s| >= 2 && s[0] == '\r' && s[1] == '\n' then RemoveCrLf(s[2..])
    else if s == [] then []
    else [s[0]] + RemoveCrLf(s[1..])
  }

  /** Only carriage returns and line feeds are removed; the other characters keep their order. */
  lemma {:induction false} RemoveCrLfKeepsText(s: string)
    ensures Unbroken(RemoveCrLf(s)) == Unbroken(s)
  {
    if |s| >= 2 && s[0] == '\r' && s[1] == '\n' {
      RemoveCrLfKeepsText(s[2..]);
      UnbrokenCons(s[0], [s[1]] + s[2..]);
      UnbrokenCons(s[1], s[2..]);
      assert s == [s[0]] + ([s[1]] + s[2..]);
    } else if s != [] {
      RemoveCrLfKeepsText(s[1..]);
      UnbrokenCons(s[0], s[1..]);
      UnbrokenCons(s[0], RemoveCrLf(s[1..]));
      assert s == [s[0]] + s[1..];
    }
  }

  /** Carriage returns and line feeds are removed in pairs: as many of each. */
  lemma {:induction false} RemoveCrLfPairs(s: string, r: string)
    requires RemoveCrLf(s) == r
    ensures multiset(s)['\r'] + multiset(r)['\n'] == multiset(s)['\n'] + multiset(r)['\r']
  {
    if |s| >= 2 && s[0] == '\r' && s[1] == '\n' {
      var t := s[2..];
      RemoveCrLfPairs(t, r);
      assert s == ['\r'] + (['\n'] + t);
      CountCons('\r', ['\n'] + t);
      CountCons('\n', t);
    } else if s != [] {
      var t := s[1..];
      var r' := RemoveCrLf(t);
      RemoveCrLfPairs(t, r');
      assert s == [s[0]] + t;
      CountCons(s[0], t);
      CountCons(s[0], r');
    }
  }

  lemma CountCons(c: char, x: string)
    ensures multiset([c] + x)['\r'] == multiset(x)['\r'] + (if c == '\r' then 1 else 0)
    ensures multiset([c] + x)['\n'] == multiset(x)['\n'] + (if c == '\n' then 1 else 0)
  {
    assert multiset([c] + x) == multiset{c} + multiset(x);
  }

  lemma UnbrokenCons(c: char, x: string)
    ensures Unbroken([c] + x) == if c == '\r' || c == '\n' then Unbroken(x) else [c] + Unbroken(x)
  {
    assert ([c] + x)[1..] == x;
  }

  /** s without its carriage returns and line feeds. */
  function Unbroken(s: string): string
  {
    if s == [] then []
    else if s[0] == '\r' || s[0] == '\n' then Unbroken(s[1..])
    else [s[0]] + Unbroken(s[1..])
  }

  /** Removes every line feed. */
  function RemoveLf(s: string): (r: string)
    ensures '\n' !in r
    ensures |r| <= |s|
  {
    if s == [] then []
    else if s[0] == '\n' then RemoveLf(s[1..])
    else [s[0]] + RemoveLf(s[1..])
  }

  /** The data with `\r\n` pairs and then all remaining line feeds removed, so rows may wrap across lines. */
  function StripLineBreaks(s: string): (r: string)
    ensures '\n' !in r
  {
    RemoveLf(RemoveCrLf(s))
  }

  /** The `$`-separated segments of s; there is always one more segment than there are `$`. */
  function SplitRows(s: string): (r: seq<string>)
    ensures |r| >= 1
    ensures forall i :: 0 <= i < |r| ==> '$' !in r[i]
    ensures JoinRows(r) == s
  {
    if s == [] then [[]]
    else if s[0] == '$' then [[]] + SplitRows(s[1..])
    else
      var t := SplitRows(s[1..]);
      [[s[0]] + t[0]] + t[1..]
  }

  /** The segments joined with `$` between them. */
  function JoinRows(rows: seq<string>): string
  {
    if rows == [] then []
    else if |rows| == 1 then rows[0]
    else rows[0] + "$" + JoinRows(rows[1..])
  }

  /** A run: `count` consecutive cells of state `status`. */
  datatype Run = Run(count: nat, status: Cell)

  /** The outcome of reading one run token. */
  datatype Step =
    | Parsed(run: Run, rest: string)
    | Stop      // no `<count>?(b|o)` token here: the row ends
    | Overflow  // a count beyond 32 bits: the decode fails

  /** Reads `<digits>?(b|o)`; a missing count means 1. */
  function ParseRun(s: string): (r: Step)
    ensures r.Parsed? ==> |r.rest| < |s| && r.run.count <= U32_MAX
  {
    var ds := Digits(s);
    var t := s[|ds|..];
    if t == [] || (t[0] != 'b' && t[0] != 'o') then Stop
    else
      var count := if ds == [] then 1 else DecimalValue(ds);
      if count > U32_MAX then Overflow
      else Parsed(Run(count, if t[0] == 'b' then Dead else Alive), t[1..])
  }

  /** The runs of a row up to its first token that is not a run; None if a count overflows on the way. */
  function RowRuns(s: string): (r: Option<seq<Run>>)
    ensures r.Some? ==> forall i :: 0 <= i < |r.value| ==> r.value[i].count <= U32_MAX
    decreases |s|
  {
    match ParseRun(s)
    case Stop => Some([])
    case Overflow => None
    case Parsed(run, rest) => Prefixed([run], RowRuns(rest))
  }

  /** `done` followed by the runs of o, if any. */
  function Prefixed(done: seq<Run>, o: Option<seq<Run>>): Option<seq<Run>>
  {
    match o
    case None => None
    case Some(rs) => Some(done + rs)
  }

  /** The runs of every row, or None if any row overflows. */
  function ParseRows(rows: seq<string>): (r: Option<seq<seq<Run>>>)
    ensures r.Some? ==> |r.value| == |rows|
  {
    if rows == [] then Some([])
    else
      var front := rows[..|rows| - 1];
      match ParseRows(front)
      case None => None
      case Some(pr) =>
        match RowRuns(rows[|rows| - 1])
        case None => None
        case Some(runs) => Some(pr + [runs])
  }

  /** The number of cells the runs cover: the cursor's x after them. */
  function Width(runs: seq<Run>): nat
  {
    if runs == [] then 0 else Width(runs[..|runs| - 1]) + runs[|runs| - 1].count
  }

  /** The live cells of the first n cells of a run of state `status` starting at (x0, y). */
  function RunCells(x0: int, y: int, status: Cell, n: nat): (r: set<Point>)
    ensures forall q :: q in r <==> status == Alive && q.y == y && x0 <= q.x < x0 + n
  {
    if n == 0 then {}
    else RunCells(x0, y, status, n - 1) + (if status == Alive then {Point(x0 + n - 1, y)} else {})
  }

  /** The live cells of row y: each `o` run fills its cells from where the previous runs ended. */
  function RowCells(runs: seq<Run>, y: int): (r: set<Point>)
    ensures forall q :: q in r ==> q.y == y && 0 <= q.x < Width(runs)
  {
    if runs == [] then {}
    else
      var front := runs[..|runs| - 1];
      var last := runs[|runs| - 1];
      RowCells(front, y) + RunCells(Width(front), y, last.status, last.count)
  }

  /** The live cells of all rows, row i at y = i. */
  function PatternCells(rows: seq<seq<Run>>): (r: set<Point>)
    ensures forall q :: q in r ==> 0 <= q.y < |rows| && 0 <= q.x
  {
    if rows == [] then {}
    else
      var front := rows[..|rows| - 1];
      PatternCells(front) + RowCells(rows[|rows| - 1], |rows| - 1)
  }

  /** A decoded pattern: the declared size and the live cells. */
  datatype Pattern = Pattern(width: nat, height: nat, cells: set<Point>)

  /** The whole decode, as a function of the text: None where the code panics. */
  function Decode(s: string): (r: Option<Pattern>)
    ensures r.Some? ==> r.value.width <= U32_MAX && r.value.height <= U32_MAX
    ensures r.Some? ==> forall q :: q in r.value.cells ==> 0 <= q.x && 0 <= q.y
  {
    match SkipComments(s)
    case None => None
    case Some(a) =>
      match ParseHeader(a)
      case None => None
      case Some(h) =>
        match ParseRows(SplitRows(StripLineBreaks(h.data)))
        case None => None
        case Some(rows) => Some(Pattern(h.width, h.height, PatternCells(rows)))
  }

  // ---------------------------------------------------------------------
  // The loader
  // ---------------------------------------------------------------------

  /** A loaded pattern: the declared size and a board holding its live cells. */
  datatype RleLoader = RleLoader(width: nat, height: nat, board: Board)

  /**
   * Decodes s into a fresh board by walking a cursor over the rows: each run
   * sets `count` cells from the cursor rightwards, and each row starts at
   * x = 0 one line below the previous one. None where the code panics.
   */
  method FromString(s: string) returns (r: Option<RleLoader>)
    ensures r.None? <==> Decode(s).None?
    ensures r.Some? ==> fresh(r.value.board)
                        && Pattern(r.value.width, r.value.height, r.value.board.living) == Decode(s).value
  {
    var a := SkipComments(s);
    if a.None? {
      return None;
    }
    var header := ParseHeader(a.value);
    if header.None? {
      return None;
    }
    var rows := SplitRows(StripLineBreaks(header.value.data));
    var board := WriteRows(rows);
    if board.None? {
      return None;
    }
    r := Some(RleLoader(header.value.width, header.value.height, board.value));
  }

  /**
   * The decode loop over the `$`-separated rows: the cursor starts at the
   * origin, and after each row returns to x = 0 one line down. None where a
   * run count overflows.
   */
  method WriteRows(rows: seq<string>) returns (r: Option<Board>)
    ensures r.None? <==> ParseRows(rows).None?
    ensures r.Some? ==> fresh(r.value) && r.value.living == PatternCells(ParseRows(rows).value)
  {
    var p := Point(0, 0);
    var board := new Board();
    ghost var parsed: seq<seq<Run>> := [];
    for i := 0 to |rows|
      invariant p == Point(0, i)
      invariant ParseRows(rows[..i]) == Some(parsed)
      invariant board.living == PatternCells(parsed)
    {
      var overflow;
      overflow, p := WriteRow(board, rows[i], p);
      if overflow {
        ParseRowsOverflow(rows, i);
        return None;
      }
      ParseRowsStep(rows, i, parsed);
      PatternCellsStep(parsed, RowRuns(rows[i]).value);
      parsed := parsed + [RowRuns(rows[i]).value];
      p := Point(0, p.y);
      p := Add(p, Point(0, 1));
    }
    assert rows[..|rows|] == rows;
    r := Some(board);
  }

  /**
   * The runs of one row written from the cursor p (at the row's start)
   * rightwards; overflow reports a count beyond 32 bits, where the code
   * panics. Returns the cursor after the last run.
   */
  method WriteRow(board: Board, row: string, p: Point) returns (overflow: bool, cursor: Point)
    requires p.x == 0
    requires forall q :: q in board.living ==> q.y < p.y
    modifies board
    ensures overflow <==> RowRuns(row).None?
    ensures !overflow ==> board.living == old(board.living) + RowCells(RowRuns(row).value, p.y)
                          && cursor == Point(Width(RowRuns(row).value), p.y)
  {
    cursor := p;
    var remaining := row;
    ghost var done: seq<Run> := [];
    PrefixedNothing(RowRuns(row));
    while true
      invariant RowRuns(row) == Prefixed(done, RowRuns(remaining))
      invariant cursor == Point(Width(done), p.y)
      invariant board.living == old(board.living) + RowCells(done, p.y)
      decreases |remaining|
    {
      var step := ParseRun(remaining);
      if step.Stop? {
        assert done + [] == done;
        return false, cursor;
      }
      if step.Overflow? {
        return true, cursor;
      }
      var run := step.run;
      cursor := WriteRun(board, run, cursor);
      PrefixedStep(done, run, RowRuns(step.rest));
      assert (done + [run])[..|done|] == done;
      remaining := step.rest;
      done := done + [run];
    }
  }

  /**
   * Sets `run.count` cells from the cursor rightwards to `run.status` and
   * returns the cursor after them. Every live cell is before the cursor, so
   * a dead run removes nothing.
   */
  method WriteRun(board: Board, run: Run, p: Point) returns (cursor: Point)
    requires forall q :: q in board.living ==> q.y < p.y || (q.y == p.y && q.x < p.x)
    modifies board
    ensures board.living == old(board.living) + RunCells(p.x, p.y, run.status, run.count)
    ensures cursor == Point(p.x + run.count, p.y)
  {
    cursor := p;
    for k := 0 to run.count
      invariant cursor == Point(p.x + k, p.y)
      invariant board.living == old(board.living) + RunCells(p.x, p.y, run.status, k)
    {
      board.SetCell(cursor, run.status);
      cursor := Add(cursor, Point(1, 0));
    }
  }

  lemma PrefixedNothing(o: Option<seq<Run>>)
    ensures Prefixed([], o) == o
  {
    if o.Some? {
      assert [] + o.value == o.value;
    }
  }

  lemma PrefixedStep(done: seq<Run>, run: Run, o: Option<seq<Run>>)
    ensures Prefixed(done, Prefixed([run], o)) == Prefixed(done + [run], o)
  {
    if o.Some? {
      assert done + ([run] + o.value) == (done + [run]) + o.value;
    }
  }

  /** A row whose runs overflow makes the whole decode of the rows fail. */
  lemma ParseRowsOverflow(rows: seq<string>, i: nat)
    requires i < |rows| && RowRuns(rows[i]).None?
    ensures ParseRows(rows).None?
  {
    ParseRowsMembers(rows);
  }

  lemma PatternCellsStep(rows: seq<seq<Run>>, runs: seq<Run>)
    ensures PatternCells(rows + [runs]) == PatternCells(rows) + RowCells(runs, |rows|)
  {
    assert (rows + [runs])[..|rows|] == rows;
  }

  /** One more row that parses extends the parsed prefix by its runs. */
  lemma ParseRowsStep(rows: seq<string>, i: nat, parsed: seq<seq<Run>>)
    requires i < |rows| && ParseRows(rows[..i]) == Some(parsed) && RowRuns(rows[i]).Some?
    ensures ParseRows(rows[..i + 1]) == Some(parsed + [RowRuns(rows[i]).value])
  {
    assert rows[..i + 1][..i] == rows[..i];
  }

  /** The rows parse exactly when every row does, and then row i's runs are RowRuns(rows[i]). */
  lemma {:induction false} ParseRowsMembers(rows: seq<string>)
    ensures ParseRows(rows).Some? <==> forall i :: 0 <= i < |rows| ==> RowRuns(rows[i]).Some?
    ensures ParseRows(rows).Some? ==>
              forall i :: 0 <= i < |rows| ==> ParseRows(rows).value[i] == RowRuns(rows[i]).value
  {
    if rows != [] {
      var front := rows[..|rows| - 1];
      ParseRowsMembers(front);
      assert forall i :: 0 <= i < |front| ==> front[i] == rows[i];
    }
  }
}
