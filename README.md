# rust-life in Dafny

A model of the core of rust-life, a sparse Conway's Game of Life engine, with
proofs about it. It covers three parts of the engine:

- **The board and the generation step** (`src/automaton.rs`, modules `Grid`,
  `Life` and `Automaton`).
  - A `Board` holds the set of its live points. A point not in the set is dead.
  - The board answers point queries, sets and flips cells, and builds the
    Moore neighbourhood of a point.
  - It collects the candidates for the next generation (`to_be_checked`):
    every live cell and every neighbour of one, each paired with its state.
  - The `Automaton` owns one board. Each generation it counts live neighbours
    against the unchanged board, collects the points to flip, then flips them.
  - `Automaton.Automaton.StepNextGeneration` is a class method over a
    `set<Point>` field. It is proved to leave exactly `NextGen(old live set)`.
  - `NextGen` is the B3/S23 rule stated for every point of the grid.
- **The earlier board variant** (`src/lib.rs`, module `LibBoard`).
  - It has the same board operations but no stepping.
  - `get_neighbours` is an explicit insertion loop.
  - Its `to_be_checked` collects only the neighbours of live cells.
  - The model states the difference exactly: the collector misses precisely
    the isolated live cells. It also proves that this loses nothing for the
    next generation.
- **The RLE pattern decoder** (`src/loader.rs`, modules `Loader` and `RleFacts`).
  - The input has leading `#` comment lines, then a header `x = W, y = H`
    whose line may carry more, such as `, rule = B3/S23`. Then comes the data:
    runs `<count>?(b|o)` with `$` between rows.
  - The parsers are functions over `string`. `Loader.Decode` states the whole
    decode as a function of the text.
  - The cursor loop that writes runs into a fresh `Board` is imperative
    (`Loader.FromString` and the three loop levels `WriteRows`, `WriteRow`,
    `WriteRun`). It is proved to produce the board `Decode` describes.
  - `RleFacts` gives an encoder as the decoder's partner and proves
    `Decode(Encode(w, h, rows))` returns the rows' cells. It also proves the
    concrete behaviour of the code on small texts.

The decoder follows what the code does, which differs in places from the
usual description of the format:

- `!` ends only the row it is in. It is not a terminator for the whole pattern.
- Any tag other than `b` or `o` silently ends its row; it is not an error.
- `2$` is one row holding the digit `2`, which yields no runs. It is not a
  two-row skip.
- Whitespace after `#` is skipped before the rest of the comment line is
  consumed, and a line feed counts as whitespace. So a `#` alone on its line
  swallows the following line.
- The declared width and height are returned as parsed and never checked.

A plain description of the format would say that `!` ends decoding, that an
unknown tag is a parse failure, and that comment lines are skipped one by one.
The model follows the code.

Panics in the code become failure in the model: `Decode` returns `None` and so
does `FromString`. These are an unwrapped comment skip (a comment without a
line end), an unwrapped header parse and a run count above 2^32 - 1.

## Model

| member | source | states |
|---|---|---|
| Grid.AddLaws | src/automaton.rs:28-42 | point addition is commutative and associative, adding the origin changes nothing, and adding an offset can be undone |
| Grid.Neighbours | src/automaton.rs:97-105 | q is in p's neighbourhood exactly when it differs from p by at most 1 in each coordinate and is not p |
| Grid.AdjacentOffset | src/automaton.rs:98-102 | every adjacent point is p plus one of the eight listed offsets |
| Grid.NeighbourhoodSize | src/automaton.rs:97-105 | the neighbourhood has exactly 8 distinct points and never contains p |
| Grid.LivingNeighbours | src/automaton.rs:107-111 | the live neighbours are exactly the adjacent points that are live; there are at most 8 |
| Life.NextGen | src/automaton.rs:153-181 | a point is live next exactly when it is live with 2 or 3 live neighbours or dead with exactly 3, counts taken on the old board; this holds for every point, so the points the loop never visits stay dead |
| Life.ShouldFlip | src/automaton.rs:161-175 | the decision table flips a candidate exactly when its B3/S23 fate (alive next with 3 live neighbours, or alive now with 2) differs from its status |
| Life.FlipSet | src/automaton.rs:158-176 | a point is marked for flipping exactly when its next state differs from its current one |
| Life.FlipsGiveNextGen | src/automaton.rs:178-180 | flipping exactly the marked points turns the live set into NextGen |
| Life.FlipTwiceRestores | src/automaton.rs:86-91 | flipping the same points twice restores the live set |
| Life.NeighbourUnionMembers | src/lib.rs:95-108 | a point is a neighbour of some live cell exactly when it has a live neighbour |
| Life.CandidatesMembers | src/automaton.rs:113-127 | the candidates are exactly the live cells and the cells with at least one live neighbour |
| Life.CandidatesInsert | src/automaton.rs:119-124 | handling one more live cell adds that cell and its neighbourhood to the candidates |
| Life.TaggedPoints | src/automaton.rs:113-127 | the tagged candidates hold exactly the candidate points, and no point with two states |
| Life.DecisionsMarkFlipSet | src/automaton.rs:158-176 | deciding every candidate by the rule's table marks exactly FlipSet |
| Life.FlippedIsNextGen | src/automaton.rs:178-180 | a live set that differs from the old one exactly on FlipSet is NextGen |
| Life.EmptyStaysEmpty | src/automaton.rs:153-181 | an empty board stays empty |
| Life.LoneCellDies | src/automaton.rs:264-270 | a board with one live cell is empty after a step |
| Life.BlinkerOscillates | src/automaton.rs:249-262 | the horizontal blinker (1,2),(2,2),(3,2) becomes the vertical one (2,1),(2,2),(2,3), and back |
| Automaton.Board.constructor | src/automaton.rs:56-60 | a new board has no live cells |
| Automaton.Board.GetCell | src/automaton.rs:66-71 | Alive exactly when p is in the live set; total, with no error case |
| Automaton.Board.SetCell | src/automaton.rs:73-78 | Alive inserts p and Dead removes p; no other point changes, and setting twice changes nothing more |
| Automaton.Board.AddCells | src/automaton.rs:80-84 | the live set becomes the old one together with every point of ps |
| Automaton.Board.FlipCell | src/automaton.rs:86-91 | toggles exactly p: p's state changes and the live set is the old one with p flipped |
| Automaton.Board.FlipAll | src/automaton.rs:178-180 | after flipping a set of points, a point is live exactly when it was live and not flipped, or dead and flipped |
| Automaton.Board.NumLiving | src/automaton.rs:93-95 | the size of the live set; zero exactly for the empty board |
| Automaton.Board.GetLivingNeighbours | src/automaton.rs:107-111 | the live points adjacent to p; at most 8 |
| Automaton.Board.ToBeChecked | src/automaton.rs:113-127 | every live cell and every neighbour of one, each paired with its current state |
| Automaton.Board.InsertNeighbourhood | src/automaton.rs:121-123 | the inner loop adds every neighbour of the point, paired with its current state |
| Automaton.Automaton.constructor | src/automaton.rs:135-139 | a new automaton owns a fresh empty board |
| Automaton.Automaton.SetBoard | src/automaton.rs:141-143 | the automaton now owns the given board |
| Automaton.Automaton.StepNextGeneration | src/automaton.rs:153-181 | the new live set is exactly NextGen of the old one: live with 2 or 3 live neighbours, or dead with exactly 3 |
| Automaton.Automaton.DecideFlips | src/automaton.rs:155-176 | with all counts taken on the unchanged board, the marked points are exactly FlipSet |
| LibBoard.Board.constructor | src/lib.rs:43-47 | a new board has no live cells and num_living is 0 |
| LibBoard.Board.GetCell | src/lib.rs:49-54 | Alive exactly when p is in the live set |
| LibBoard.Board.SetCell | src/lib.rs:56-61 | Alive inserts p and Dead removes p; no other point changes |
| LibBoard.Board.AddCells | src/lib.rs:63-67 | the live set becomes the old one together with every point of ps |
| LibBoard.Board.NumLiving | src/lib.rs:69-71 | the size of the live set; zero exactly for the empty board |
| LibBoard.Board.GetNeighbours | src/lib.rs:73-87 | the insertion loop over the eight offsets yields exactly the Moore neighbourhood of p |
| LibBoard.Board.GetLivingNeighbours | src/lib.rs:89-93 | exactly the live points adjacent to p |
| LibBoard.Board.ToBeChecked | src/lib.rs:95-108 | exactly the neighbours of the live cells; a live cell is included only as a neighbour of another |
| LibBoard.NeighbourUnionInsert | src/lib.rs:101-105 | handling one more live cell adds exactly its neighbourhood |
| LibBoard.MissedCandidates | src/lib.rs:95-108 | compared with the automaton's collector, this one misses exactly the live cells without a live neighbour |
| LibBoard.NeighbourUnionSuffices | src/lib.rs:95-108 | evaluating only the neighbour union still yields the whole next generation |
| LibBoard.DominoToBeChecked | src/lib.rs:155-166 | for live cells (2,0),(3,0) the neighbours are the twelve points x in 1..4, y in -1..1 |
| LibBoard.DominoCandidates | src/automaton.rs:234-247 | the automaton's collector gives the same twelve points on that board, each with one state |
| LibBoard.DiagonalLivingNeighbours | src/lib.rs:142-153 | with live cells (0,4),(2,2), both are the live neighbours of (1,3) |
| Loader.SkipSpace | src/loader.rs:21-23 | what is left starts with no blank, tab, carriage return or line feed |
| Loader.SkipSpaceSplit | src/loader.rs:21-23 | what is dropped is whitespace only, and what is kept is the rest of the text |
| RleFacts.SkipSpaceBlanks | src/loader.rs:21-23 | whitespace in front of text that does not start with whitespace is all dropped, line feeds included |
| Loader.AfterLineEnd | src/loader.rs:21-23 | there is a rest of the text exactly when it holds a line feed, and the rest is shorter |
| Loader.AfterLineEndSplit | src/loader.rs:23 | the rest is what follows the first line feed: the text before it holds no line feed |
| Loader.Digits | src/loader.rs:30-31 | the longest prefix of decimal digits |
| Loader.DecimalRoundTrip | src/loader.rs:30-31 | the value of a number's decimal spelling is the number |
| Loader.DigitsOfNumber | src/loader.rs:49 | a digit string followed by a non-digit reads as exactly that digit string |
| Loader.ParseNumber | src/loader.rs:30-31 | a parsed number fits in 32 bits and consumes at least one digit |
| Loader.SkipComments | src/loader.rs:21-28 | what is returned is a tail of the text that does not start, after blanks, with `#` |
| Loader.ParseDimension | src/loader.rs:35 | a parsed dimension fits in 32 bits |
| Loader.ParseHeader | src/loader.rs:33-39 | width and height fit in 32 bits; text not starting with `x =` has no header |
| RleFacts.HeaderShape | src/loader.rs:33-39 | every accepted header is whitespace, `x =`, whitespace, the width's digits, `,` at once, whitespace, `y =`, whitespace, the height's digits, the rest of its line and a line feed, then the data; any other text fails |
| RleFacts.ShapedHeader | src/loader.rs:33-39 | conversely, text of that shape is read as that header when both numbers fit in 32 bits |
| Loader.RemoveCrLf | src/loader.rs:57 | the text never grows; `Loader.RemoveCrLfKeepsText` and `Loader.RemoveCrLfPairs` say what goes |
| Loader.RemoveCrLfKeepsText | src/loader.rs:57 | only carriage returns and line feeds are removed, and the other characters keep their order |
| Loader.RemoveCrLfPairs | src/loader.rs:57 | carriage returns and line feeds are removed in equal numbers |
| Loader.RemoveLf | src/loader.rs:58 | no line feed is left |
| Loader.StripLineBreaks | src/loader.rs:57-58 | the data has no line feed left |
| Loader.SplitRows | src/loader.rs:59 | at least one segment, none holding `$`, and joining them with `$` gives the text back |
| Loader.ParseRun | src/loader.rs:47-55 | a parsed run fits in 32 bits and consumes text |
| Loader.RowRuns | src/loader.rs:67-74 | every run read fits in 32 bits; `RleFacts.RowRunsEncoded` gives back an encoded row's runs |
| Loader.ParseRows | src/loader.rs:64-78 | one run list per row |
| Loader.ParseRowsMembers | src/loader.rs:64-74 | the rows parse exactly when every row parses, and row i gives that row's runs |
| Loader.ParseRowsOverflow | src/loader.rs:52 | one row whose count overflows makes the whole decode fail |
| Loader.RunCells | src/loader.rs:68-71 | a run writes live cells exactly on its count columns from the cursor when it is an `o` run, and none for `b` |
| Loader.RowCells | src/loader.rs:64-77 | a row's cells lie on its line, between x = 0 and the sum of its counts |
| Loader.PatternCells | src/loader.rs:61-78 | the cells lie at x >= 0 and 0 <= y below the number of rows |
| Loader.Decode | src/loader.rs:13-80 | a decoded size fits in 32 bits and every cell lies at x >= 0, y >= 0; `RleFacts.DecodeEncode` gives the cells of an encoded pattern |
| Loader.FromString | src/loader.rs:13-80 | fails exactly when Decode fails; otherwise a fresh board whose live set, with the declared size, is Decode's pattern |
| Loader.WriteRows | src/loader.rs:61-78 | the loop over rows fails exactly when a row overflows; otherwise a fresh board holding exactly the pattern's cells |
| Loader.WriteRow | src/loader.rs:64-77 | the run loop of one row fails exactly on overflow; otherwise it adds exactly the row's cells and leaves the cursor after the row |
| Loader.WriteRun | src/loader.rs:68-71 | one run adds exactly its cells and moves the cursor count places right; a `b` run removes no earlier live cell |
| RleFacts.ParseRunEncoded | src/loader.rs:47-55 | an encoded run reads back as itself, the count defaulting to 1 when absent |
| RleFacts.ParseRunShape | src/loader.rs:47-55 | every run read is optional digits then `b` or `o`, with count 1 when there are no digits and the digits' value otherwise |
| RleFacts.SpelledRunParses | src/loader.rs:47-55 | conversely, any digits (an explicit `1`, leading zeros) and `b` or `o` are read as that run when the count fits in 32 bits |
| RleFacts.CountedNonRunStops | src/loader.rs:67-74 | a count followed by anything but `b` or `o` is no run: the row ends there, without error |
| RleFacts.TrailingCountStops | src/loader.rs:67-74 | a count at the end of a row is no run: the row ends, without error |
| RleFacts.OverflowingRun | src/loader.rs:49-52 | a count beyond 32 bits makes the run overflow |
| RleFacts.RowRunsEncoded | src/loader.rs:67-74 | an encoded row reads back as its runs, followed by the runs of what comes after it |
| RleFacts.UnknownTagEndsRow | src/loader.rs:67-74 | any character other than a digit, `b` or `o` ends the row, without error |
| RleFacts.RowEndsAtUnknownTag | src/loader.rs:67-74 | a row read up to an unknown tag keeps exactly the runs before it |
| RleFacts.SplitEncodeData | src/loader.rs:59 | splitting encoded data on `$` gives back the rows' texts |
| RleFacts.ParseEncodedRows | src/loader.rs:64-74 | the rows' texts parse back to the rows |
| RleFacts.WrappedData | src/loader.rs:57-58 | a line feed or `\r\n` inside the data disappears, so rows may wrap across lines |
| RleFacts.NoLineBreaks | src/loader.rs:57-58 | data without line breaks is left unchanged |
| RleFacts.HeaderEncoded | src/loader.rs:33-39 | `x = W, y = H` and a line feed reads back as W, H and the rest of the text |
| RleFacts.HeaderTrailer | src/loader.rs:33-36 | anything after the height on the header line is consumed up to the line feed and ignored |
| RleFacts.UnterminatedCommentFails | src/loader.rs:21-28 | a comment, indented or not, without a line end makes the decode fail |
| RleFacts.NoComments | src/loader.rs:25-28 | text starting with neither whitespace nor `#` has nothing skipped |
| RleFacts.CommentLineSkipped | src/loader.rs:21-26 | a comment line (optional whitespace, `#`, optional whitespace, text up to a line feed) is skipped |
| RleFacts.DecodeSkipsComment | src/loader.rs:21-28 | such a comment line, indented or not, does not change the decode |
| RleFacts.BlankCommentLine | src/loader.rs:21-23 | a `#` alone on its line takes the next line as its comment text |
| RleFacts.DecodeEncode | src/loader.rs:13-80 | decoding an encoded pattern gives its size and the cells of its rows |
| RleFacts.PatternCellsMembers | src/loader.rs:61-78 | the i-th row lands at y = i, and only there |
| RleFacts.RowCellsMembers | src/loader.rs:64-74 | a cell of a row is live exactly when an `o` run covers it, counting columns from the sum of the earlier counts |
| RleFacts.SimpleFile | src/loader.rs:89-102 | `x = 3, y = 4` with `bo$2bo$3o!` gives width 3, height 4 and live cells (1,0),(2,1),(0,2),(1,2),(2,2) |
| RleFacts.WidthNotChecked | src/loader.rs:80 | a width-1 header with a row of three live cells keeps all three |
| RleFacts.BangEndsOnlyItsRow | src/loader.rs:59-74 | in `o!bo$2o!` the `!` drops only the rest of row 0, and row 1 is still decoded |
| RleFacts.UnknownTagNotAnError | src/loader.rs:67-74 | `oxo!` decodes to the single cell before `x` |
| RleFacts.CountedRowSkipIsOneRow | src/loader.rs:59-78 | `2$o!` puts the `o` at y = 1, not y = 2 |
| RleFacts.MalformedHeaderFails | src/loader.rs:33-39 | a header `x=3` without the blank makes the decode fail |
| RleFacts.CountOverflowFails | src/loader.rs:52 | a run count of 4294967296 makes the decode fail |
| RleFacts.BlankCommentSwallowsHeader | src/loader.rs:21-39 | a `#` alone on the first line swallows the header line, so the decode fails |
| RleFacts.DecodeNoHeader | src/loader.rs:38-39 | text whose comments are followed by no header does not decode |

## Left out

- `src/interface.rs` and `src/main.rs` are not part of this model. They hold
  terminal drawing, keyboard polling, pacing and argument handling, all of it
  I/O around `get_cell` and `step_next_generation`.
- `RleLoader::from_reader` reads a stream into a string. Only that read is
  left out: `Loader.FromString` takes the text.
- Coordinates are unbounded integers. The 32-bit signed overflow of `Point`
  addition, and of the cursor, is not modelled.
- `Point::new`, `Point::from_tuple`, the `point!` macro and `AddAssign` are
  plain constructors or additions. `Grid.Add` (with `Grid.AddLaws`) and the
  `Point` datatype cover them.
- `Board::living_cells`, `Automaton::get_board` and `get_board_mut` are
  accessors. The model reads the `living` and `board` fields directly.
- `HashSet` iteration order is not observable. The loops over sets pick an
  arbitrary element, so every result is proved for any order.
- The parser library's streaming machinery is not modelled. Where the comment
  or header parser runs out of input before it can decide, the outcome is
  taken as failure, as the code's unwrap panics there: a comment or a header
  without a line end. Where the run parser runs out of input, at the end of a
  row or after a trailing count, the row just ends, as in the code's loop.
- A header number above 2^32 - 1 fails like a malformed header. A run count
  above it also makes the decode fail, where the code panics.
- The Gosper glider gun fixture (src/loader.rs:104-117) is not proved as a
  concrete lemma, because evaluating its 36 cells costs the verifier too much.
  Its parts are covered by general lemmas: the line feed before its first
  comment and the comment lines (`RleFacts.DecodeSkipsComment`), the header
  with `, rule = B3/S23` (`RleFacts.HeaderTrailer`) and the row that wraps
  across lines (`RleFacts.WrappedData`). Its count of 36 live cells is not proved.
- Automaton.Automaton.SetBoard: Rust moves the board into the automaton, so
  the caller can no longer reach it. The model passes a shared reference, and
  the caller's reference still aliases the automaton's board.
- `Automaton.Automaton.StepNextGeneration`'s two loops are modelled as the
  methods `DecideFlips` and `Board.FlipAll`. The inner loop of
  `to_be_checked` is modelled as `Board.InsertNeighbourhood`. The three loop
  levels of the decode are `WriteRows`, `WriteRow` and `WriteRun`. Each keeps
  the source loop's steps; only the nesting is split into methods.
