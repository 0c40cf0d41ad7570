/**
 * Properties of the RLE decoder: an encoder that is its partner (decoding
 * an encoded pattern gives the pattern back), how rows and line breaks are
 * treated, and the fixtures of src/loader.rs together with the corner cases
 * where the code differs from the usual reading of the format.
 */
module RleFacts {
  import opened Grid
  import opened Loader

  // ---------------------------------------------------------------------
  // Encoder
  // ---------------------------------------------------------------------

  /** The tag of a run: `o` for alive, `b` for dead. */
  function Tag(status: Cell): char
  {
    if status == Alive then 'o' else 'b'
  }

  /** One run token; a count of 1 is left implicit. */
  function EncodeRun(r: Run): string
  {
    (if r.count == 1 then [] else Decimal(r.count)) + [Tag(r.status)]
  }

  /** The tokens of a row, one after another. */
  function EncodeRow(runs: seq<Run>): string
  {
    if runs == [] then [] else EncodeRun(runs[0]) + EncodeRow(runs[1..])
  }

  /** The rows joined by `$`, with `!` after the last one. */
  function EncodeData(rows: seq<seq<Run>>): string
    requires rows != []
  {
    if |rows| == 1 then EncodeRow(rows[0]) + "!"
    else EncodeRow(rows[0]) + "$" + EncodeData(rows[1..])
  }

  /** A whole pattern text: the header line, then the data on one line. */
  function Encode(width: nat, height: nat, rows: seq<seq<Run>>): string
    requires rows != []
  {
    "x = " + Decimal(width) + ", y = " + Decimal(height) + "\n" + EncodeData(rows)
  }

  /** Every count fits in 32 bits, as the decoder requires. */
  predicate CountsFit(runs: seq<Run>)
  {
    forall i :: 0 <= i < |runs| ==> runs[i].count <= U32_MAX
  }

  // ---------------------------------------------------------------------
  // Runs and rows
  // ---------------------------------------------------------------------

  /** A run token reads back as its run, whatever follows it. */
  lemma ParseRunEncoded(r: Run, t: string)
    requires r.count <= U32_MAX
    ensures ParseRun(EncodeRun(r) + t) == Parsed(r, t)
  {
    var tail := [Tag(r.status)] + t;
    if r.count == 1 {
      assert EncodeRun(r) + t == tail;
      assert Digits(tail) == [];
    } else {
      assert EncodeRun(r) + t == Decimal(r.count) + tail;
      DigitsOfNumber(Decimal(r.count), tail);
      DecimalRoundTrip(r.count);
      assert (Decimal(r.count) + tail)[|Decimal(r.count)|..] == tail;
    }
  }

  /** The runs of an encoded row are read back, followed by the runs of what comes after it. */
  lemma {:induction false} RowRunsEncoded(runs: seq<Run>, t: string)
    requires CountsFit(runs)
    ensures RowRuns(EncodeRow(runs) + t) == Prefixed(runs, RowRuns(t))
  {
    if runs == [] {
      assert EncodeRow(runs) + t == t;
      PrefixedNothing(RowRuns(t));
    } else {
      var rest := EncodeRow(runs[1..]) + t;
      assert EncodeRow(runs) + t == EncodeRun(runs[0]) + rest;
      ParseRunEncoded(runs[0], rest);
      assert RowRuns(EncodeRow(runs) + t) == Prefixed([runs[0]], RowRuns(rest));
      RowRunsEncoded(runs[1..], t);
      PrefixedConcat([runs[0]], runs[1..], RowRuns(t));
      assert [runs[0]] + runs[1..] == runs;
    }
  }

  lemma PrefixedConcat(a: seq<Run>, b: seq<Run>, o: Option<seq<Run>>)
    ensures Prefixed(a, Prefixed(b, o)) == Prefixed(a + b, o)
  {
    if o.Some? {
      assert a + (b + o.value) == (a + b) + o.value;
    }
  }

  /**
   * Any character other than a digit, `b` or `o` (for instance `!`) ends
   * the row: it and everything after it in the row are ignored, and it is
   * not an error.
   */
  lemma UnknownTagEndsRow(c: char, u: string)
    requires !IsDigit(c) && c != 'b' && c != 'o'
    ensures ParseRun([c] + u) == Stop
    ensures RowRuns([c] + u) == Some([])
  {
    assert Digits([c] + u) == [];
  }

  /** A count followed by anything but `b` or `o` (such as `2!` or `3x`) is no run: the row ends there. */
  lemma CountedNonRunStops(ds: string, c: char, u: string)
    requires AllDigits(ds) && !IsDigit(c) && c != 'b' && c != 'o'
    ensures ParseRun(ds + [c] + u) == Stop
    ensures RowRuns(ds + [c] + u) == Some([])
  {
    DigitsOfNumber(ds, [c] + u);
    assert ds + [c] + u == ds + ([c] + u);
    assert (ds + ([c] + u))[|ds|..] == [c] + u;
  }

  /** A count at the end of a row (such as the `2` of `2$`) is no run: the row ends without error. */
  lemma TrailingCountStops(ds: string)
    requires AllDigits(ds)
    ensures ParseRun(ds) == Stop
    ensures RowRuns(ds) == Some([])
  {
    DigitsOfNumber(ds, []);
    assert ds + [] == ds;
  }

  /** s spells `run` as optional digits and a tag, followed by rest. */
  predicate RunSpelled(s: string, run: Run, rest: string, ds: string, c: char)
  {
    && AllDigits(ds) && (c == 'b' || c == 'o')
    && s == ds + [c] + rest
    && run.count == (if ds == [] then 1 else DecimalValue(ds))
    && run.status == (if c == 'b' then Dead else Alive)
  }

  /** Every run the parser reads is optional digits and `b` or `o`; a missing count is 1. */
  lemma ParseRunShape(s: string, run: Run, rest: string)
    requires ParseRun(s) == Parsed(run, rest)
    ensures exists ds, c :: RunSpelled(s, run, rest, ds, c)
  {
    var ds := Digits(s);
    var c := s[|ds|];
    assert s == ds + [c] + rest;
    assert RunSpelled(s, run, rest, ds, c);
  }

  /**
   * Conversely, any digits (an explicit `1`, leading zeros) and `b` or `o`
   * are read as one run, when the count fits in 32 bits.
   */
  lemma SpelledRunParses(s: string, run: Run, rest: string, ds: string, c: char)
    requires RunSpelled(s, run, rest, ds, c) && run.count <= U32_MAX
    ensures ParseRun(s) == Parsed(run, rest)
  {
    DigitsOfNumber(ds, [c] + rest);
    assert s == ds + ([c] + rest);
    assert s[|ds|..] == [c] + rest;
  }

  /** A row read up to an unknown tag keeps exactly the runs before the tag. */
  lemma RowEndsAtUnknownTag(runs: seq<Run>, c: char, u: string)
    requires CountsFit(runs)
    requires !IsDigit(c) && c != 'b' && c != 'o'
    ensures RowRuns(EncodeRow(runs) + [c] + u) == Some(runs)
  {
    assert EncodeRow(runs) + [c] + u == EncodeRow(runs) + ([c] + u);
    RowRunsEncoded(runs, [c] + u);
    UnknownTagEndsRow(c, u);
    assert runs + [] == runs;
  }

  /** The empty row has no runs. */
  lemma EmptyRow()
    ensures RowRuns([]) == Some([])
  {
  }

  // ---------------------------------------------------------------------
  // Characters of encoded text
  // ---------------------------------------------------------------------

  /** Only digits and run tags. */
  predicate RunText(s: string)
  {
    forall i :: 0 <= i < |s| ==> IsDigit(s[i]) || s[i] == 'b' || s[i] == 'o'
  }

  lemma {:induction false} EncodeRowText(runs: seq<Run>)
    ensures RunText(EncodeRow(runs))
  {
    if runs != [] {
      EncodeRowText(runs[1..]);
      var e := EncodeRun(runs[0]);
      assert RunText(e);
      var rest := EncodeRow(runs[1..]);
      assert forall i :: |e| <= i < |e| + |rest| ==> (e + rest)[i] == rest[i - |e|];
    }
  }

  lemma RunTextHasNo(s: string, c: char)
    requires RunText(s) && !IsDigit(c) && c != 'b' && c != 'o'
    ensures c !in s
  {
  }

  // ---------------------------------------------------------------------
  // Rows
  // ---------------------------------------------------------------------

  /** A segment without `$` is a single row. */
  lemma {:induction false} SplitSingle(r: string)
    requires '$' !in r
    ensures SplitRows(r) == [r]
  {
    if r != [] {
      SplitSingle(r[1..]);
      assert [r[0]] + r[1..] == r;
    }
  }

  /** A `$` after a segment without `$` ends that row, and the rest splits on its own. */
  lemma {:induction false} SplitFirst(r: string, rest: string)
    requires '$' !in r
    ensures SplitRows(r + "$" + rest) == [r] + SplitRows(rest)
  {
    if r == [] {
      assert r + "$" + rest == "$" + rest;
      assert ("$" + rest)[1..] == rest;
    } else {
      assert (r + "$" + rest)[1..] == r[1..] + "$" + rest;
      SplitFirst(r[1..], rest);
      assert [r[0]] + r[1..] == r;
    }
  }

  /** The texts of the rows of an encoded data section, `!` ending the last one. */
  function RowTexts(rows: seq<seq<Run>>): (r: seq<string>)
    requires rows != []
    ensures |r| == |rows|
  {
    if |rows| == 1 then [EncodeRow(rows[0]) + "!"]
    else [EncodeRow(rows[0])] + RowTexts(rows[1..])
  }

  /** Splitting encoded data on `$` gives back the row texts. */
  lemma {:induction false} SplitEncodeData(rows: seq<seq<Run>>)
    requires rows != []
    ensures SplitRows(EncodeData(rows)) == RowTexts(rows)
  {
    EncodeRowText(rows[0]);
    RunTextHasNo(EncodeRow(rows[0]), '$');
    if |rows| == 1 {
      SplitSingle(EncodeRow(rows[0]) + "!");
    } else {
      SplitEncodeData(rows[1..]);
      SplitFirst(EncodeRow(rows[0]), EncodeData(rows[1..]));
    }
  }

  /** Each row text reads back as its row. */
  lemma {:induction false} RowTextsRuns(rows: seq<seq<Run>>, i: nat)
    requires rows != [] && i < |rows|
    requires forall j :: 0 <= j < |rows| ==> CountsFit(rows[j])
    ensures RowRuns(RowTexts(rows)[i]) == Some(rows[i])
  {
    if i == 0 {
      if |rows| == 1 {
        RowEndsAtUnknownTag(rows[0], '!', []);
        assert EncodeRow(rows[0]) + ['!'] + [] == EncodeRow(rows[0]) + "!";
      } else {
        RowRunsEncoded(rows[0], []);
        assert EncodeRow(rows[0]) + [] == EncodeRow(rows[0]);
        assert rows[0] + [] == rows[0];
      }
    } else {
      RowTextsRuns(rows[1..], i - 1);
    }
  }

  /** Encoded data parses back to its rows. */
  lemma ParseEncodedRows(rows: seq<seq<Run>>)
    requires rows != []
    requires forall j :: 0 <= j < |rows| ==> CountsFit(rows[j])
    ensures ParseRows(RowTexts(rows)) == Some(rows)
  {
    var texts := RowTexts(rows);
    forall i | 0 <= i < |texts| ensures RowRuns(texts[i]) == Some(rows[i]) {
      RowTextsRuns(rows, i);
    }
    ParseRowsMembers(texts);
    var v := ParseRows(texts).value;
    assert forall i :: 0 <= i < |v| ==> v[i] == RowRuns(texts[i]).value == rows[i];
    assert v == rows;
  }

  // ---------------------------------------------------------------------
  // Line breaks
  // ---------------------------------------------------------------------

  lemma {:induction false} RemoveCrLfConcat(a: string, b: string)
    requires a == [] || a[|a| - 1] != '\r'
    ensures RemoveCrLf(a + b) == RemoveCrLf(a) + RemoveCrLf(b)
    decreases |a|
  {
    if a == [] {
      assert a + b == b;
    } else if |a| >= 2 && a[0] == '\r' && a[1] == '\n' {
      RemoveCrLfConcat(a[2..], b);
      RemoveCrLfPairStep(a, b);
    } else {
      RemoveCrLfConcat(a[1..], b);
      RemoveCrLfKeepStep(a, b);
    }
  }

  /** The inductive step of RemoveCrLfConcat when a starts with `\r\n`. */
  lemma RemoveCrLfPairStep(a: string, b: string)
    requires |a| >= 2 && a[0] == '\r' && a[1] == '\n'
    requires RemoveCrLf(a[2..] + b) == RemoveCrLf(a[2..]) + RemoveCrLf(b)
    ensures RemoveCrLf(a + b) == RemoveCrLf(a) + RemoveCrLf(b)
  {
    PairAfterConcat(a, b);
    RemoveCrLfDrop(a);
    RemoveCrLfDrop(a + b);
  }

  /** A `\r\n` pair at the front of a is at the front of a + b. */
  lemma PairAfterConcat(a: string, b: string)
    requires |a| >= 2 && a[0] == '\r' && a[1] == '\n'
    ensures |a + b| >= 2 && (a + b)[0] == '\r' && (a + b)[1] == '\n'
    ensures (a + b)[2..] == a[2..] + b
  {
    assert (a + b)[2..] == a[2..] + b;
  }

  /** A `\r\n` pair at the front is removed. */
  lemma RemoveCrLfDrop(s: string)
    requires |s| >= 2 && s[0] == '\r' && s[1] == '\n'
    ensures RemoveCrLf(s) == RemoveCrLf(s[2..])
  {
  }

  /** The inductive step of RemoveCrLfConcat when the first character of a is kept. */
  lemma RemoveCrLfKeepStep(a: string, b: string)
    requires a != [] && a[|a| - 1] != '\r' && !(|a| >= 2 && a[0] == '\r' && a[1] == '\n')
    requires RemoveCrLf(a[1..] + b) == RemoveCrLf(a[1..]) + RemoveCrLf(b)
    ensures RemoveCrLf(a + b) == RemoveCrLf(a) + RemoveCrLf(b)
  {
    var ab := a + b;
    KeptAfterConcat(a, b);
    RemoveCrLfKeep(a);
    RemoveCrLfKeep(ab);
    var x, y := RemoveCrLf(a[1..]), RemoveCrLf(b);
    ConsAssoc(a[0], x, y);
  }

  lemma ConsAssoc(c: char, x: string, y: string)
    ensures [c] + (x + y) == ([c] + x) + y
  {
  }

  /** Without a `\r\n` pair at the front, the first character is kept. */
  lemma RemoveCrLfKeep(s: string)
    requires s != [] && !(|s| >= 2 && s[0] == '\r' && s[1] == '\n')
    ensures RemoveCrLf(s) == [s[0]] + RemoveCrLf(s[1..])
  {
  }

  /** If the first character of a is kept, it is kept in a + b as well. */
  lemma KeptAfterConcat(a: string, b: string)
    requires a != [] && a[|a| - 1] != '\r' && !(|a| >= 2 && a[0] == '\r' && a[1] == '\n')
    ensures (a + b)[0] == a[0] && (a + b)[1..] == a[1..] + b
    ensures !(|a + b| >= 2 && (a + b)[0] == '\r' && (a + b)[1] == '\n')
  {
    if |a| >= 2 {
      assert (a + b)[1] == a[1];
    }
    assert (a + b)[1..] == a[1..] + b;
  }

  lemma {:induction false} RemoveLfConcat(a: string, b: string)
    ensures RemoveLf(a + b) == RemoveLf(a) + RemoveLf(b)
  {
    if a == [] {
      assert a + b == b;
    } else {
      assert (a + b)[1..] == a[1..] + b;
      RemoveLfConcat(a[1..], b);
    }
  }

  /** Removing line breaks distributes over a split that does not cut a `\r\n` pair. */
  lemma StripConcat(a: string, b: string)
    requires a == [] || a[|a| - 1] != '\r'
    ensures StripLineBreaks(a + b) == StripLineBreaks(a) + StripLineBreaks(b)
  {
    RemoveCrLfConcat(a, b);
    RemoveLfConcat(RemoveCrLf(a), RemoveCrLf(b));
  }

  /**
   * A row may be wrapped across lines with `\n` or `\r\n`: the line break
   * disappears and the two pieces are decoded as one.
   */
  lemma WrappedData(a: string, b: string)
    requires a == [] || a[|a| - 1] != '\r'
    ensures StripLineBreaks(a + "\n" + b) == StripLineBreaks(a) + StripLineBreaks(b)
    ensures StripLineBreaks(a + "\r\n" + b) == StripLineBreaks(a) + StripLineBreaks(b)
  {
    StripConcat(a, "\n" + b);
    StripConcat("\n", b);
    assert a + "\n" + b == a + ("\n" + b);
    assert RemoveCrLf("\n") == "\n";
    StripConcat(a, "\r\n" + b);
    StripConcat("\r\n", b);
    assert a + "\r\n" + b == a + ("\r\n" + b);
    assert RemoveCrLf("\r\n") == [];
  }

  /** Text without `\r` and `\n` is left as it is. */
  lemma {:induction false} NoLineBreaks(s: string)
    requires '\r' !in s && '\n' !in s
    ensures StripLineBreaks(s) == s
  {
    if s != [] {
      NoLineBreaks(s[1..]);
      StripConcat([s[0]], s[1..]);
      assert [s[0]] + s[1..] == s;
    }
  }

  /** Data with no line break and no `$` is one row. */
  lemma OneSegment(a: string)
    requires '$' !in a && '\r' !in a && '\n' !in a
    ensures SplitRows(StripLineBreaks(a)) == [a]
  {
    NoLineBreaks(a);
    SplitSingle(a);
  }

  /** Data with no line break and a single `$` is two rows. */
  lemma TwoSegments(a: string, b: string)
    requires '$' !in a && '\r' !in a && '\n' !in a
    requires '$' !in b && '\r' !in b && '\n' !in b
    ensures SplitRows(StripLineBreaks(a + "$" + b)) == [a, b]
  {
    NoLineBreaks(a + "$" + b);
    SplitFirst(a, b);
    SplitSingle(b);
  }

  // ---------------------------------------------------------------------
  // Header and comments
  // ---------------------------------------------------------------------

  /** A number spelled in decimal, followed by a non-digit, reads back as itself. */
  lemma ParseNumberEncoded(n: nat, t: string)
    requires n <= U32_MAX
    requires t == [] || !IsDigit(t[0])
    ensures ParseNumber(Decimal(n) + t) == Some((n, t))
  {
    DigitsOfNumber(Decimal(n), t);
    DecimalRoundTrip(n);
    assert (Decimal(n) + t)[|Decimal(n)|..] == t;
  }

  /** Whitespace before text that does not start with whitespace is skipped. */
  lemma SkipOneSpace(t: string)
    requires t == [] || !IsSpace(t[0])
    ensures SkipSpace(" " + t) == t
  {
    assert (" " + t)[1..] == t;
  }

  /** `name = N` (name followed by a blank and a decimal number) reads back as N. */
  lemma DimensionEncoded(name: string, n: nat, t: string)
    requires name != [] && !IsSpace(name[0])
    requires n <= U32_MAX && (t == [] || !IsDigit(t[0]))
    ensures ParseDimension(name + " " + Decimal(n) + t, name) == Some((n, t))
  {
    var x := Decimal(n) + t;
    var s := name + (" " + x);
    assert name + " " + Decimal(n) + t == s;
    assert SkipSpace(s) == s;
    assert StartsWith(s, name);
    assert s[|name|..] == " " + x;
    SkipOneSpace(x);
    ParseNumberEncoded(n, t);
  }

  /** The header line `x = W, y = H` is read back, and what follows it is the data. */
  lemma HeaderEncoded(width: nat, height: nat, data: string)
    requires width <= U32_MAX && height <= U32_MAX
    ensures ParseHeader("x = " + Decimal(width) + ", y = " + Decimal(height) + "\n" + data)
            == Some(Header(width, height, data))
  {
    var tail := "\n" + data;
    var b := ", y = " + Decimal(height) + tail;
    HeaderText(Decimal(width), Decimal(height), data);
    DimensionEncoded("x =", width, b);
    HeightEncoded(height, tail);
    assert AfterLineEnd(tail) == Some(data);
    HeaderParts("x =" + " " + Decimal(width) + b, width, b, height, tail, data);
  }

  /**
   * Anything after the height on the header line (such as `, rule = B3/S23`)
   * is read up to the line feed and ignored.
   */
  lemma HeaderTrailer(width: nat, height: nat, extra: string, data: string)
    requires width <= U32_MAX && height <= U32_MAX
    requires '\n' !in extra && (extra == [] || !IsDigit(extra[0]))
    ensures ParseHeader("x = " + Decimal(width) + ", y = " + Decimal(height) + extra + "\n" + data)
            == Some(Header(width, height, data))
  {
    var tail := extra + ("\n" + data);
    var b := ", y = " + Decimal(height) + tail;
    TrailerText(Decimal(width), Decimal(height), extra, data);
    DimensionEncoded("x =", width, b);
    HeightEncoded(height, tail);
    AfterFirstLineEnd(extra, data);
    HeaderParts("x =" + " " + Decimal(width) + b, width, b, height, tail, data);
  }

  lemma TrailerText(w: string, h: string, extra: string, data: string)
    ensures "x = " + w + ", y = " + h + extra + "\n" + data
         == "x =" + " " + w + (", y = " + h + (extra + ("\n" + data)))
  {
  }

  lemma HeaderText(w: string, h: string, data: string)
    ensures "x = " + w + ", y = " + h + "\n" + data == "x =" + " " + w + (", y = " + h + ("\n" + data))
  {
  }

  /** The header parser's steps, each taken on what the previous one left. */
  lemma HeaderParts(s: string, x: nat, b: string, y: nat, tail: string, data: string)
    requires ParseDimension(s, "x =") == Some((x, b))
    requires StartsWith(b, ",")
    requires ParseDimension(b[1..], "y =") == Some((y, tail))
    requires AfterLineEnd(tail) == Some(data)
    ensures ParseHeader(s) == Some(Header(x, y, data))
  {
  }

  /** After the width, `, y = H` is read back as the height. */
  lemma HeightEncoded(height: nat, tail: string)
    requires height <= U32_MAX && (tail == [] || !IsDigit(tail[0]))
    ensures StartsWith(", y = " + Decimal(height) + tail, ",")
    ensures ParseDimension((", y = " + Decimal(height) + tail)[1..], "y =") == Some((height, tail))
  {
    var c := "y =" + " " + Decimal(height) + tail;
    HeightText(Decimal(height), tail);
    SkipOneSpace(c);
    DimensionEncoded("y =", height, tail);
  }

  lemma HeightText(h: string, tail: string)
    ensures ", y = " + h + tail == "," + (" " + ("y =" + " " + h + tail))
    ensures (", y = " + h + tail)[1..] == " " + ("y =" + " " + h + tail)
  {
    assert ", y = " + h + tail == "," + (" " + ("y =" + " " + h + tail));
  }

  /**
   * The header line as the parser reads it: whitespace, `x =`, whitespace,
   * the width's digits, `,` at once, whitespace, `y =`, whitespace, the
   * height's digits, the rest of the line (not starting with a digit), a
   * line feed, then the data.
   */
  predicate HeaderShaped(s: string, h: Header, w1: string, w2: string, dx: string,
                         w3: string, w4: string, dy: string, rest: string)
  {
    && Blanks(w1) && Blanks(w2) && Blanks(w3) && Blanks(w4)
    && dx != [] && AllDigits(dx) && DecimalValue(dx) == h.width
    && dy != [] && AllDigits(dy) && DecimalValue(dy) == h.height
    && (rest == [] || !IsDigit(rest[0])) && '\n' !in rest
    && s == w1 + "x =" + w2 + dx + "," + w3 + "y =" + w4 + dy + rest + "\n" + h.data
  }

  /**
   * Every header the parser accepts has that shape; so a width not followed
   * at once by `,`, a missing `y =`, a missing number or a header line
   * without a line feed all make it fail.
   */
  lemma HeaderShape(s: string, h: Header)
    requires ParseHeader(s) == Some(h)
    ensures exists w1, w2, dx, w3, w4, dy, rest :: HeaderShaped(s, h, w1, w2, dx, w3, w4, dy, rest)
  {
    var (x, b) := ParseDimension(s, "x =").value;
    var w1, w2, dx := DimensionSplit(s, "x =", x, b);
    var (y, d) := ParseDimension(b[1..], "y =").value;
    var w3, w4, dy := DimensionSplit(b[1..], "y =", y, d);
    var data := AfterLineEnd(d).value;
    var rest := LineSplit(d, data);
    assert b == "," + b[1..];
    HeaderJoin(s, b, d, w1, w2, dx, w3, w4, dy, rest, data);
    assert HeaderShaped(s, h, w1, w2, dx, w3, w4, dy, rest);
  }

  /** Conversely, text of that shape is read as its header, when both numbers fit in 32 bits. */
  lemma ShapedHeader(s: string, h: Header, w1: string, w2: string, dx: string,
                     w3: string, w4: string, dy: string, rest: string)
    requires HeaderShaped(s, h, w1, w2, dx, w3, w4, dy, rest)
    requires h.width <= U32_MAX && h.height <= U32_MAX
    ensures ParseHeader(s) == Some(h)
  {
    var d := rest + ("\n" + h.data);
    var b := "," + (w3 + "y =" + w4 + dy + d);
    HeaderSplit(s, b, d, w1, w2, dx, w3, w4, dy, rest, h.data);
    DimensionJoin(w1, "x =", w2, dx, b);
    assert b[1..] == w3 + "y =" + w4 + dy + d;
    DimensionJoin(w3, "y =", w4, dy, d);
    AfterFirstLineEnd(rest, h.data);
    HeaderParts(s, h.width, b, h.height, d, h.data);
  }

  lemma HeaderJoin(s: string, b: string, d: string, w1: string, w2: string, dx: string,
                   w3: string, w4: string, dy: string, rest: string, data: string)
    requires s == w1 + "x =" + w2 + dx + b
    requires b != [] && b == "," + b[1..] && b[1..] == w3 + "y =" + w4 + dy + d
    requires d == rest + "\n" + data
    ensures s == w1 + "x =" + w2 + dx + "," + w3 + "y =" + w4 + dy + rest + "\n" + data
  {
  }

  lemma HeaderSplit(s: string, b: string, d: string, w1: string, w2: string, dx: string,
                    w3: string, w4: string, dy: string, rest: string, data: string)
    requires s == w1 + "x =" + w2 + dx + "," + w3 + "y =" + w4 + dy + rest + "\n" + data
    requires d == rest + ("\n" + data)
    requires b == "," + (w3 + "y =" + w4 + dy + d)
    ensures s == w1 + "x =" + w2 + dx + b
  {
  }

  /** What one dimension of the header consumed: whitespace, the tag, whitespace, digits. */
  lemma DimensionSplit(s: string, name: string, n: nat, t: string) returns (w1: string, w2: string, ds: string)
    requires ParseDimension(s, name) == Some((n, t))
    ensures Blanks(w1) && Blanks(w2)
    ensures ds != [] && AllDigits(ds) && DecimalValue(ds) == n && (t == [] || !IsDigit(t[0]))
    ensures s == w1 + name + w2 + ds + t
  {
    var a := SkipSpace(s);
    var u := a[|name|..];
    var b := SkipSpace(u);
    w1 := BlankPrefix(s);
    w2 := BlankPrefix(u);
    assert a == name + u;
    ds := NumberSplit(b, n, t);
    DimensionText(s, a, u, b, w1, name, w2, ds, t);
  }

  /** The whitespace SkipSpace drops from s. */
  lemma BlankPrefix(s: string) returns (w: string)
    ensures Blanks(w) && s == w + SkipSpace(s)
  {
    var r := SkipSpace(s);
    SkipSpaceSplit(s, r);
    w := s[..|s| - |r|];
    assert forall i :: 0 <= i < |w| ==> w[i] == s[i];
    assert s == w + s[|s| - |r|..];
  }

  /** The line AfterLineEnd skipped, without its line feed. */
  lemma LineSplit(d: string, data: string) returns (rest: string)
    requires AfterLineEnd(d) == Some(data)
    ensures '\n' !in rest && d == rest + "\n" + data
  {
    AfterLineEndSplit(d, data);
    var k := |d| - |data| - 1;
    rest := d[..k];
    assert forall i :: 0 <= i < |rest| ==> rest[i] == d[i];
    assert d == d[..k] + [d[k]] + d[k + 1..];
  }

  /** The digits ParseNumber read. */
  lemma NumberSplit(b: string, n: nat, t: string) returns (ds: string)
    requires ParseNumber(b) == Some((n, t))
    ensures ds != [] && AllDigits(ds) && DecimalValue(ds) == n && (t == [] || !IsDigit(t[0]))
    ensures b == ds + t
  {
    ds := Digits(b);
    assert b == ds + b[|ds|..];
  }

  lemma DimensionText(s: string, a: string, u: string, b: string,
                      w1: string, name: string, w2: string, ds: string, t: string)
    requires s == w1 + a && a == name + u && u == w2 + b && b == ds + t
    ensures s == w1 + name + w2 + ds + t
  {
  }

  /** One dimension written with any whitespace around its tag reads back as its digits' value. */
  lemma DimensionJoin(w1: string, name: string, w2: string, ds: string, t: string)
    requires Blanks(w1) && Blanks(w2) && name != [] && !IsSpace(name[0])
    requires ds != [] && AllDigits(ds) && DecimalValue(ds) <= U32_MAX
    requires t == [] || !IsDigit(t[0])
    ensures ParseDimension(w1 + name + w2 + ds + t, name) == Some((DecimalValue(ds), t))
  {
    var a := name + (w2 + (ds + t));
    DimensionText(w1 + name + w2 + ds + t, a, w2 + (ds + t), ds + t, w1, name, w2, ds, t);
    SkipSpaceBlanks(w1, a);
    assert a[..|name|] == name;
    assert a[|name|..] == w2 + (ds + t);
    assert IsDigit(ds[0]);
    SkipSpaceBlanks(w2, ds + t);
    DigitsOfNumber(ds, t);
    assert (ds + t)[|ds|..] == t;
  }

  /** A comment without a line end makes the decode fail. */
  lemma UnterminatedCommentFails(w: string, c: string)
    requires Blanks(w) && '\n' !in c
    ensures SkipComments(w + "#" + c) == None
    ensures Decode(w + "#" + c) == None
  {
    var t := "#" + c;
    assert w + "#" + c == w + t;
    SkipSpaceBlanks(w, t);
    assert t[1..] == c;
    var r := SkipSpace(c);
    SkipSpaceSplit(c, r);
    assert '\n' !in r by {
      forall i | 0 <= i < |r|
        ensures r[i] != '\n'
      {
        assert r[i] == c[|c| - |r| + i];
      }
    }
  }

  /** Text starting with anything but whitespace or `#` has no comments to skip. */
  lemma NoComments(s: string)
    requires s != [] && !IsSpace(s[0]) && s[0] != '#'
    ensures SkipComments(s) == Some(s)
  {
  }

  /** Whitespace before text that does not start with whitespace is skipped, line feeds included. */
  lemma {:induction false} SkipSpaceBlanks(w: string, t: string)
    requires Blanks(w)
    requires t == [] || !IsSpace(t[0])
    ensures SkipSpace(w + t) == t
  {
    if w != [] {
      assert (w + t)[1..] == w[1..] + t;
      SkipSpaceBlanks(w[1..], t);
    } else {
      assert w + t == t;
    }
  }

  /**
   * A comment line is skipped: optional whitespace, `#`, whitespace, then
   * the comment text c up to the line feed. The whitespace after `#` may
   * itself hold line feeds; c is then a later line, which is taken as the
   * comment and skipped with everything before it.
   */
  lemma CommentLineSkipped(w: string, w2: string, c: string, s: string)
    requires Blanks(w) && Blanks(w2)
    requires c != [] && !IsSpace(c[0]) && '\n' !in c
    ensures SkipComments(w + "#" + w2 + c + "\n" + s) == SkipComments(s)
  {
    var tail := c + ("\n" + s);
    var b := "#" + (w2 + tail);
    CommentText(w, w2, c, s);
    SkipSpaceBlanks(w, b);
    assert b[1..] == w2 + tail;
    SkipSpaceBlanks(w2, tail);
    AfterFirstLineEnd(c, s);
  }

  lemma CommentText(w: string, w2: string, c: string, s: string)
    ensures w + "#" + w2 + c + "\n" + s == w + ("#" + (w2 + (c + ("\n" + s))))
  {
  }

  lemma {:induction false} AfterFirstLineEnd(c: string, s: string)
    requires '\n' !in c
    ensures AfterLineEnd(c + ("\n" + s)) == Some(s)
  {
    if c != [] {
      assert (c + ("\n" + s))[1..] == c[1..] + ("\n" + s);
      AfterFirstLineEnd(c[1..], s);
    } else {
      assert c + ("\n" + s) == "\n" + s;
    }
  }

  // ---------------------------------------------------------------------
  // Round trip
  // ---------------------------------------------------------------------

  /** Decoding an encoded pattern gives back its declared size and its cells. */
  lemma DecodeEncode(width: nat, height: nat, rows: seq<seq<Run>>)
    requires width <= U32_MAX && height <= U32_MAX
    requires rows != [] && forall j :: 0 <= j < |rows| ==> CountsFit(rows[j])
    ensures Decode(Encode(width, height, rows)) == Some(Pattern(width, height, PatternCells(rows)))
  {
    var s := Encode(width, height, rows);
    NoComments(s);
    HeaderEncoded(width, height, EncodeData(rows));
    DataEncoded(rows);
    DecodeAfterHeader(s, Header(width, height, EncodeData(rows)));
  }

  /** Once comments and header are read, the data decides the rest. */
  lemma DecodeAfterHeader(s: string, h: Header)
    requires SkipComments(s) == Some(s) && ParseHeader(s) == Some(h)
    ensures Decode(s) == match ParseRows(SplitRows(StripLineBreaks(h.data)))
                         case None => None
                         case Some(rows) => Some(Pattern(h.width, h.height, PatternCells(rows)))
  {
  }

  /** An encoded data section parses back to its rows. */
  lemma DataEncoded(rows: seq<seq<Run>>)
    requires rows != [] && forall j :: 0 <= j < |rows| ==> CountsFit(rows[j])
    ensures ParseRows(SplitRows(StripLineBreaks(EncodeData(rows)))) == Some(rows)
  {
    EncodedDataFlat(rows);
    NoLineBreaks(EncodeData(rows));
    SplitEncodeData(rows);
    ParseEncodedRows(rows);
  }

  /** Encoded data is on one line. */
  lemma {:induction false} EncodedDataFlat(rows: seq<seq<Run>>)
    requires rows != []
    ensures '\r' !in EncodeData(rows) && '\n' !in EncodeData(rows)
  {
    EncodeRowText(rows[0]);
    RunTextHasNo(EncodeRow(rows[0]), '\r');
    RunTextHasNo(EncodeRow(rows[0]), '\n');
    if |rows| > 1 {
      EncodedDataFlat(rows[1..]);
    }
  }

  // ---------------------------------------------------------------------
  // Where the cells land
  // ---------------------------------------------------------------------

  /** Row i of the data lands at y = i: a cell is live exactly when its own row makes it live. */
  lemma {:induction false} PatternCellsMembers(rows: seq<seq<Run>>)
    ensures forall q :: q in PatternCells(rows) <==> 0 <= q.y < |rows| && q in RowCells(rows[q.y], q.y)
  {
    if rows != [] {
      var front := rows[..|rows| - 1];
      PatternCellsMembers(front);
      forall q ensures q in PatternCells(rows) <==> 0 <= q.y < |rows| && q in RowCells(rows[q.y], q.y) {
        if 0 <= q.y < |front| {
          assert front[q.y] == rows[q.y];
        }
      }
    }
  }

  /** Run j of a row is an `o` run whose columns, counted from the runs before it, include x. */
  predicate Covers(runs: seq<Run>, j: int, x: int)
  {
    0 <= j < |runs| && runs[j].status == Alive && Width(runs[..j]) <= x < Width(runs[..j]) + runs[j].count
  }

  /**
   * A cell of row y is live exactly when an `o` run covers it: run j covers
   * the columns from the total count of the runs before it, for `count`
   * columns.
   */
  lemma {:induction false} RowCellsMembers(runs: seq<Run>, y: int)
    ensures forall q :: q in RowCells(runs, y) <==> q.y == y && exists j :: Covers(runs, j, q.x)
  {
    if runs != [] {
      var n := |runs| - 1;
      var front := runs[..n];
      RowCellsMembers(front, y);
      forall q ensures q in RowCells(runs, y) <==> q.y == y && exists j :: Covers(runs, j, q.x) {
        RowCellsMemberStep(runs, front, y, q);
      }
    }
  }

  /** The inductive step of RowCellsMembers for one cell q. */
  lemma RowCellsMemberStep(runs: seq<Run>, front: seq<Run>, y: int, q: Point)
    requires runs != [] && front == runs[..|runs| - 1]
    requires forall p :: p in RowCells(front, y) <==> p.y == y && exists j :: Covers(front, j, p.x)
    ensures q in RowCells(runs, y) <==> q.y == y && exists j :: Covers(runs, j, q.x)
  {
    var n := |runs| - 1;
    var last := runs[n];
    assert RowCells(runs, y) == RowCells(front, y) + RunCells(Width(front), y, last.status, last.count);
    if q in RowCells(front, y) {
      var j :| Covers(front, j, q.x);
      CoversFront(runs, j, q.x);
    }
    if q in RunCells(Width(front), y, last.status, last.count) {
      assert Covers(runs, n, q.x);
    }
    if q.y == y && exists j :: Covers(runs, j, q.x) {
      var j :| Covers(runs, j, q.x);
      if j < n {
        CoversFront(runs, j, q.x);
        assert q in RowCells(front, y);
      }
    }
  }

  /** A run before the last one covers the same columns in the row and in the row without its last run. */
  lemma CoversFront(runs: seq<Run>, j: int, x: int)
    requires 0 <= j < |runs| - 1
    ensures Covers(runs, j, x) <==> Covers(runs[..|runs| - 1], j, x)
  {
    assert runs[..|runs| - 1][..j] == runs[..j];
  }

  // ---------------------------------------------------------------------
  // Fixtures and corner cases
  // ---------------------------------------------------------------------

  /** With a plain header, the data section alone decides the cells. */
  lemma DecodeWithHeader(width: nat, height: nat, data: string)
    requires width <= U32_MAX && height <= U32_MAX
    ensures Decode("x = " + Decimal(width) + ", y = " + Decimal(height) + "\n" + data)
            == match ParseRows(SplitRows(StripLineBreaks(data)))
               case None => None
               case Some(rows) => Some(Pattern(width, height, PatternCells(rows)))
  {
    var s := "x = " + Decimal(width) + ", y = " + Decimal(height) + "\n" + data;
    NoComments(s);
    HeaderEncoded(width, height, data);
    DecodeAfterHeader(s, Header(width, height, data));
  }

  /** A fixture decodes to its pattern once its text, rows and cells are known. */
  lemma DecodeFixture(s: string, width: nat, height: nat, data: string, rows: seq<seq<Run>>, cells: set<Point>)
    requires width <= U32_MAX && height <= U32_MAX
    requires s == "x = " + Decimal(width) + ", y = " + Decimal(height) + "\n" + data
    requires ParseRows(SplitRows(StripLineBreaks(data))) == Some(rows)
    requires PatternCells(rows) == cells
    ensures Decode(s) == Some(Pattern(width, height, cells))
  {
    DecodeWithHeader(width, height, data);
  }

  /** A comment line, indented or not, does not change the decode. */
  lemma DecodeSkipsComment(w: string, w2: string, c: string, s: string)
    requires Blanks(w) && Blanks(w2)
    requires c != [] && !IsSpace(c[0]) && '\n' !in c
    ensures Decode(w + "#" + w2 + c + "\n" + s) == Decode(s)
  {
    CommentLineSkipped(w, w2, c, s);
  }

  /** The rows of the simple fixture: `bo`, `2bo`, `3o`. */
  const SimpleRows: seq<seq<Run>> :=
    [[Run(1, Dead), Run(1, Alive)], [Run(2, Dead), Run(1, Alive)], [Run(3, Alive)]]

  /** The simple fixture decodes to width 3, height 4 and five live cells. */
  lemma SimpleFile()
    ensures Decode("x = 3, y = 4\nbo$2bo$3o!")
            == Some(Pattern(3, 4, {Point(1, 0), Point(2, 1), Point(0, 2), Point(1, 2), Point(2, 2)}))
  {
    SimpleText();
    SimpleParsed();
    SimpleCells();
    DecodeFixture("x = 3, y = 4\nbo$2bo$3o!", 3, 4, "bo$2bo$3o!", SimpleRows,
                  {Point(1, 0), Point(2, 1), Point(0, 2), Point(1, 2), Point(2, 2)});
  }

  lemma SimpleParsed()
    ensures ParseRows(SplitRows(StripLineBreaks("bo$2bo$3o!"))) == Some(SimpleRows)
  {
    SimpleData();
    DataEncoded(SimpleRows);
  }

  lemma SimpleText()
    ensures "x = 3, y = 4\nbo$2bo$3o!" == "x = " + Decimal(3) + ", y = " + Decimal(4) + "\n" + "bo$2bo$3o!"
  {
  }

  lemma SimpleData()
    ensures EncodeData(SimpleRows) == "bo$2bo$3o!"
  {
    var r0, r1, r2 := SimpleRows[0], SimpleRows[1], SimpleRows[2];
    ThreeRowData(r0, r1, r2);
    SimpleRowTexts();
    assert "bo" + "$" + "2bo" + "$" + "3o" + "!" == "bo$2bo$3o!";
  }

  lemma SimpleRowTexts()
    ensures EncodeRow(SimpleRows[0]) == "bo"
    ensures EncodeRow(SimpleRows[1]) == "2bo"
    ensures EncodeRow(SimpleRows[2]) == "3o"
  {
    assert Decimal(2) == "2" && Decimal(3) == "3";
  }

  /** The data text of three rows. */
  lemma ThreeRowData(a: seq<Run>, b: seq<Run>, c: seq<Run>)
    ensures EncodeData([a, b, c]) == EncodeRow(a) + "$" + EncodeRow(b) + "$" + EncodeRow(c) + "!"
  {
    assert [a, b, c][1..] == [b, c] && [b, c][1..] == [c];
    assert EncodeData([c]) == EncodeRow(c) + "!";
    assert EncodeData([b, c]) == EncodeRow(b) + "$" + (EncodeRow(c) + "!");
    assert EncodeData([a, b, c]) == EncodeRow(a) + "$" + (EncodeRow(b) + "$" + (EncodeRow(c) + "!"));
  }

  lemma SimpleCells()
    ensures PatternCells(SimpleRows) == {Point(1, 0), Point(2, 1), Point(0, 2), Point(1, 2), Point(2, 2)}
  {
    var r0, r1, r2 := SimpleRows[0], SimpleRows[1], SimpleRows[2];
    assert SimpleRows[..1] == [r0] && SimpleRows[..2] == [r0, r1];
    var first: seq<seq<Run>> := [r0];
    assert |first[..0]| == 0 && [r0, r1][..1] == first;
    assert r0[..1] == [Run(1, Dead)] && r1[..1] == [Run(2, Dead)] && |r2[..0]| == 0;
    assert RowCells(r0, 0) == {Point(1, 0)};
    assert RowCells(r1, 1) == {Point(2, 1)};
    assert RowCells(r2, 2) == {Point(0, 2), Point(1, 2), Point(2, 2)};
  }

  /** A single row that parses gives its runs. */
  lemma OneRow(s0: string, a: seq<Run>)
    requires RowRuns(s0) == Some(a)
    ensures ParseRows([s0]) == Some([a])
  {
    var texts: seq<string> := [s0];
    assert |texts[..0]| == 0;
    var none: seq<seq<Run>> := [];
    assert none + [a] == [a];
  }

  /** Two rows that parse give their runs. */
  lemma TwoRows(s0: string, s1: string, a: seq<Run>, b: seq<Run>)
    requires RowRuns(s0) == Some(a) && RowRuns(s1) == Some(b)
    ensures ParseRows([s0, s1]) == Some([a, b])
  {
    OneRow(s0, a);
    assert [s0, s1][..1] == [s0];
    assert [a] + [b] == [a, b];
  }

  /** The cells of one row holding a single run at y. */
  lemma SingleRunRow(r: Run, y: int)
    ensures RowCells([r], y) == RunCells(0, y, r.status, r.count)
  {
    var runs := [r];
    assert |runs[..0]| == 0;
  }

  /** A pattern of one row. */
  lemma OneRowCells(a: seq<Run>)
    ensures PatternCells([a]) == RowCells(a, 0)
  {
    var rows := [a];
    assert |rows[..0]| == 0;
  }

  /** A pattern of two rows. */
  lemma TwoRowCells(a: seq<Run>, b: seq<Run>)
    ensures PatternCells([a, b]) == RowCells(a, 0) + RowCells(b, 1)
  {
    OneRowCells(a);
    assert [a, b][..1] == [a];
  }

  /** The declared width is not checked: a width-1 header with a row of three live cells keeps all three. */
  lemma WidthNotChecked()
    ensures Decode("x = 1, y = 1\n3o!") == Some(Pattern(1, 1, {Point(0, 0), Point(1, 0), Point(2, 0)}))
  {
    WideText();
    WideRows();
    WideCells();
    DecodeFixture("x = 1, y = 1\n3o!", 1, 1, "3o!", [[Run(3, Alive)]],
                  {Point(0, 0), Point(1, 0), Point(2, 0)});
  }

  lemma WideText()
    ensures "x = 1, y = 1\n3o!" == "x = " + Decimal(1) + ", y = " + Decimal(1) + "\n" + "3o!"
  {
  }

  lemma WideRows()
    ensures ParseRows(SplitRows(StripLineBreaks("3o!"))) == Some([[Run(3, Alive)]])
  {
    OneSegment("3o!");
    WideRow();
    OneRow("3o!", [Run(3, Alive)]);
  }

  lemma WideRow()
    ensures RowRuns("3o!") == Some([Run(3, Alive)])
  {
    var runs := [Run(3, Alive)];
    assert Decimal(3) == "3";
    assert EncodeRow(runs) == "3o";
    RowEndsAtUnknownTag(runs, '!', []);
    assert "3o" + ['!'] + [] == "3o!";
  }

  lemma WideCells()
    ensures PatternCells([[Run(3, Alive)]]) == {Point(0, 0), Point(1, 0), Point(2, 0)}
  {
    OneRowCells([Run(3, Alive)]);
    SingleRunRow(Run(3, Alive), 0);
    assert RunCells(0, 0, Alive, 3) == {Point(0, 0), Point(1, 0), Point(2, 0)};
  }

  /** The text of the `!` fixture is its header followed by the data `o!bo$2o!`. */
  lemma BangText()
    ensures "x = 2, y = 2\no!bo$2o!" == "x = " + Decimal(2) + ", y = " + Decimal(2) + "\n" + "o!bo$2o!"
  {
  }

  /** The data `o!bo$2o!` is the rows `o!bo` and `2o!`, reading as `o` and `2o`. */
  lemma BangRows()
    ensures ParseRows(SplitRows(StripLineBreaks("o!bo$2o!"))) == Some([[Run(1, Alive)], [Run(2, Alive)]])
  {
    BangSplit();
    BangFirstRow();
    BangSecondRow();
    TwoRows("o!bo", "2o!", [Run(1, Alive)], [Run(2, Alive)]);
  }

  lemma BangSplit()
    ensures SplitRows(StripLineBreaks("o!bo$2o!")) == ["o!bo", "2o!"]
  {
    TwoSegments("o!bo", "2o!");
    assert "o!bo" + "$" + "2o!" == "o!bo$2o!";
  }

  lemma BangFirstRow()
    ensures RowRuns("o!bo") == Some([Run(1, Alive)])
  {
    var runs := [Run(1, Alive)];
    assert EncodeRow(runs) == "o";
    RowEndsAtUnknownTag(runs, '!', "bo");
    assert "o" + ['!'] + "bo" == "o!bo";
  }

  lemma BangSecondRow()
    ensures RowRuns("2o!") == Some([Run(2, Alive)])
  {
    var runs := [Run(2, Alive)];
    assert Decimal(2) == "2";
    assert EncodeRow(runs) == "2o";
    RowEndsAtUnknownTag(runs, '!', []);
    assert "2o" + ['!'] + [] == "2o!";
  }

  /**
   * `!` ends only the row it is in: the run after it in row 0 is ignored,
   * and row 1 is still decoded.
   */
  lemma BangEndsOnlyItsRow()
    ensures Decode("x = 2, y = 2\no!bo$2o!") == Some(Pattern(2, 2, {Point(0, 0), Point(0, 1), Point(1, 1)}))
  {
    BangText();
    BangRows();
    BangCells();
    DecodeFixture("x = 2, y = 2\no!bo$2o!", 2, 2, "o!bo$2o!", [[Run(1, Alive)], [Run(2, Alive)]],
                  {Point(0, 0), Point(0, 1), Point(1, 1)});
  }

  lemma BangCells()
    ensures PatternCells([[Run(1, Alive)], [Run(2, Alive)]]) == {Point(0, 0), Point(0, 1), Point(1, 1)}
  {
    var a, b := [Run(1, Alive)], [Run(2, Alive)];
    TwoRowCells(a, b);
    SingleRunRow(Run(1, Alive), 0);
    SingleRunRow(Run(2, Alive), 1);
    assert RunCells(0, 0, Alive, 1) == {Point(0, 0)};
    assert RunCells(0, 1, Alive, 2) == {Point(0, 1), Point(1, 1)};
  }

  lemma UnknownTagText()
    ensures "x = 3, y = 1\noxo!" == "x = " + Decimal(3) + ", y = " + Decimal(1) + "\n" + "oxo!"
  {
  }

  lemma UnknownTagRows()
    ensures ParseRows(SplitRows(StripLineBreaks("oxo!"))) == Some([[Run(1, Alive)]])
  {
    OneSegment("oxo!");
    var a := [Run(1, Alive)];
    RowEndsAtUnknownTag(a, 'x', "o!");
    assert EncodeRow(a) + ['x'] + "o!" == "oxo!";
    OneRow("oxo!", a);
  }

  /** An unknown tag is not an error: it ends its row, and the decode goes on. */
  lemma UnknownTagNotAnError()
    ensures Decode("x = 3, y = 1\noxo!") == Some(Pattern(3, 1, {Point(0, 0)}))
  {
    UnknownTagText();
    UnknownTagRows();
    UnknownTagCells();
    DecodeFixture("x = 3, y = 1\noxo!", 3, 1, "oxo!", [[Run(1, Alive)]], {Point(0, 0)});
  }

  lemma UnknownTagCells()
    ensures PatternCells([[Run(1, Alive)]]) == {Point(0, 0)}
  {
    OneRowCells([Run(1, Alive)]);
    SingleRunRow(Run(1, Alive), 0);
    assert RunCells(0, 0, Alive, 1) == {Point(0, 0)};
  }

  lemma RowSkipText()
    ensures "x = 1, y = 3\n2$o!" == "x = " + Decimal(1) + ", y = " + Decimal(3) + "\n" + "2$o!"
  {
  }

  lemma RowSkipRows()
    ensures ParseRows(SplitRows(StripLineBreaks("2$o!"))) == Some([[], [Run(1, Alive)]])
  {
    RowSkipSplit();
    RowSkipFirstRow();
    RowSkipSecondRow();
    TwoRows("2", "o!", [], [Run(1, Alive)]);
  }

  lemma RowSkipSplit()
    ensures SplitRows(StripLineBreaks("2$o!")) == ["2", "o!"]
  {
    TwoSegments("2", "o!");
    assert "2" + "$" + "o!" == "2$o!";
  }

  lemma RowSkipFirstRow()
    ensures RowRuns("2") == Some([])
  {
    assert Digits("2") == "2";
    assert ParseRun("2") == Stop;
  }

  lemma RowSkipSecondRow()
    ensures RowRuns("o!") == Some([Run(1, Alive)])
  {
    var runs := [Run(1, Alive)];
    assert EncodeRow(runs) == "o";
    RowEndsAtUnknownTag(runs, '!', []);
    assert "o" + ['!'] + [] == "o!";
  }

  /**
   * A count before `$` does not skip rows: `2$` is a row holding only the
   * digit 2, which parses to no runs, and the next row is row 1.
   */
  lemma CountedRowSkipIsOneRow()
    ensures Decode("x = 1, y = 3\n2$o!") == Some(Pattern(1, 3, {Point(0, 1)}))
  {
    RowSkipText();
    RowSkipRows();
    RowSkipCells();
    DecodeFixture("x = 1, y = 3\n2$o!", 1, 3, "2$o!", [[], [Run(1, Alive)]], {Point(0, 1)});
  }

  lemma RowSkipCells()
    ensures PatternCells([[], [Run(1, Alive)]]) == {Point(0, 1)}
  {
    TwoRowCells([], [Run(1, Alive)]);
    SingleRunRow(Run(1, Alive), 1);
    assert RunCells(0, 1, Alive, 1) == {Point(0, 1)};
  }

  /** A header without the blank in `x =` makes the decode fail. */
  lemma MalformedHeaderFails()
    ensures Decode("x=3, y=4\no!") == None
  {
    var s := "x=3, y=4\no!";
    NoComments(s);
    assert SkipSpace(s) == s;
    assert s[..3][1] == '=';
    assert !StartsWith(s, "x =");
  }

  lemma OverflowText()
    ensures "x = 1, y = 1\n4294967296o!" == "x = " + Decimal(1) + ", y = " + Decimal(1) + "\n" + "4294967296o!"
  {
  }

  lemma OverflowRow()
    ensures ParseRun("4294967296o!") == Overflow
  {
    var ds := "4294967296";
    LargeCount();
    OverflowingRun(ds, 'o', "!");
    assert ds + ['o'] + "!" == "4294967296o!";
  }

  /** A run whose count is beyond 32 bits overflows, whatever follows it. */
  lemma OverflowingRun(ds: string, c: char, t: string)
    requires ds != [] && AllDigits(ds) && DecimalValue(ds) > U32_MAX
    requires c == 'b' || c == 'o'
    ensures ParseRun(ds + [c] + t) == Overflow
  {
    DigitsOfNumber(ds, [c] + t);
    assert ds + [c] + t == ds + ([c] + t);
    assert (ds + ([c] + t))[|ds|..] == [c] + t;
  }

  /** The ten digits 4294967296 are the number 2 to the 32nd. */
  lemma LargeCount()
    ensures DecimalValue("4294967296") == 4294967296
  {
    LargeCountMiddle();
    DecimalValueAppend("4294967", '2');
    assert "4294967" + ['2'] == "42949672";
    DecimalValueAppend("42949672", '9');
    assert "42949672" + ['9'] == "429496729";
    DecimalValueAppend("429496729", '6');
    assert "429496729" + ['6'] == "4294967296";
  }

  /** The first seven digits of 4294967296. */
  lemma LargeCountMiddle()
    ensures DecimalValue("4294967") == 4294967
  {
    LargeCountHead();
    DecimalValueAppend("4294", '9');
    assert "4294" + ['9'] == "42949";
    DecimalValueAppend("42949", '6');
    assert "42949" + ['6'] == "429496";
    DecimalValueAppend("429496", '7');
    assert "429496" + ['7'] == "4294967";
  }

  /** The first four digits of 4294967296. */
  lemma LargeCountHead()
    ensures DecimalValue("4294") == 4294
  {
    DecimalValueAppend([], '4');
    assert [] + ['4'] == "4";
    DecimalValueAppend("4", '2');
    assert "4" + ['2'] == "42";
    DecimalValueAppend("42", '9');
    assert "42" + ['9'] == "429";
    DecimalValueAppend("429", '4');
    assert "429" + ['4'] == "4294";
  }

  /** Appending one digit multiplies the value by ten and adds the digit. */
  lemma DecimalValueAppend(ds: string, c: char)
    requires AllDigits(ds) && IsDigit(c)
    ensures AllDigits(ds + [c])
    ensures DecimalValue(ds + [c]) == DecimalValue(ds) * 10 + DigitValue(c)
  {
    assert (ds + [c])[..|ds|] == ds;
  }

  /** A run count beyond 32 bits makes the decode fail. */
  lemma CountOverflowFails()
    ensures Decode("x = 1, y = 1\n4294967296o!") == None
  {
    OverflowText();
    DecodeWithHeader(1, 1, "4294967296o!");
    OverflowRows();
  }

  lemma OverflowRows()
    ensures ParseRows(SplitRows(StripLineBreaks("4294967296o!"))).None?
  {
    var data := "4294967296o!";
    OneSegment(data);
    OverflowRow();
    ParseRowsOverflow([data], 0);
  }

  /**
   * A `#` with nothing after it on its line swallows the next line: the
   * whitespace skip after `#` crosses the line feed, so the comment runs to
   * the end of the header line and the header is lost.
   */
  lemma BlankCommentSwallowsHeader()
    ensures Decode("#\nx = 1, y = 1\no!") == None
  {
    SwallowedComments();
    NoHeaderInData();
    DecodeNoHeader("#\nx = 1, y = 1\no!", "o!");
  }

  lemma SwallowedComments()
    ensures SkipComments("#\nx = 1, y = 1\no!") == Some("o!")
  {
    SwallowedHeader();
    NoComments("o!");
  }

  lemma NoHeaderInData()
    ensures ParseHeader("o!").None?
  {
    assert SkipSpace("o!") == "o!";
    assert !StartsWith("o!", "x =");
  }

  /** Text without a header after its comments does not decode. */
  lemma DecodeNoHeader(s: string, a: string)
    requires SkipComments(s) == Some(a) && ParseHeader(a).None?
    ensures Decode(s) == None
  {
  }

  lemma SwallowedHeader()
    ensures SkipComments("#\nx = 1, y = 1\no!") == SkipComments("o!")
  {
    SwallowedText();
    BlankCommentLine("x = 1, y = 1", "o!");
  }

  lemma SwallowedText()
    ensures "#\n" + "x = 1, y = 1" + "\n" + "o!" == "#\nx = 1, y = 1\no!"
  {
  }

  /**
   * A `#` alone on its line: the whitespace skip after `#` crosses the line
   * feed, so the comment is taken to be the next line c, which is skipped too.
   */
  lemma BlankCommentLine(c: string, s: string)
    requires c != [] && !IsSpace(c[0]) && '\n' !in c
    ensures SkipComments("#\n" + c + "\n" + s) == SkipComments(s)
  {
    assert [] + "#" + "\n" + c + "\n" + s == "#\n" + c + "\n" + s;
    CommentLineSkipped([], "\n", c, s);
  }
}
