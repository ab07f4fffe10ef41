/**
 * The exact string and table logic of excercise2_gaussian/parse.py, which
 * collects the results of Gaussian output files into a ';'-separated table:
 * the normalisation of the quote each job prints, the table layout of
 * `data_to_table`, the flag split of the command line, the column selection
 * of the default output and the sorted unique quotes of `--quotes`.
 *
 * Reading the files and the regular-expression searches that find the
 * energy, the distance matrix and the quote in them are not part of this
 * model; they hand over strings.
 */
module GaussianParse {
  import opened Wrappers

  // ---------------------------------------------------------------------------
  // Quote normalisation (lines 49-53)
  // ---------------------------------------------------------------------------

  /** The characters Python's `str.strip()` removes: those for which `str.isspace()` holds. */
  predicate IsSpace(c: char)
  {
    c == ' ' || c == '\t' || c == '\n' || c == '\r' || c == '\U{000B}' || c == '\U{000C}'
    || ('\U{001C}' <= c <= '\U{001F}') || c == '\U{0085}' || c == '\U{00A0}' || c == '\U{1680}'
    || ('\U{2000}' <= c <= '\U{200A}') || c == '\U{2028}' || c == '\U{2029}' || c == '\U{202F}'
    || c == '\U{205F}' || c == '\U{3000}'
  }

  /** `temp.replace("\n", "")`. */
  function RemoveNewlines(s: string): (r: string)
    ensures forall k :: 0 <= k < |r| ==> r[k] != '\n'
    ensures forall c :: c in r <==> c in s && c != '\n'
  {
    if |s| == 0 then []
    else if s[0] == '\n' then RemoveNewlines(s[1..])
    else [s[0]] + RemoveNewlines(s[1..])
  }

  /** The leading whitespace dropped: a suffix of s that is empty or starts with a non-space. */
  function StripStart(s: string): (r: string)
    ensures |r| <= |s| && r == s[|s| - |r|..]
    ensures forall k :: 0 <= k < |s| - |r| ==> IsSpace(s[k])
    ensures |r| > 0 ==> !IsSpace(r[0])
  {
    if |s| > 0 && IsSpace(s[0]) then StripStart(s[1..]) else s
  }

  /** The trailing whitespace dropped: a prefix of s that is empty or ends with a non-space. */
  function StripEnd(s: string): (r: string)
    ensures |r| <= |s| && r == s[..|r|]
    ensures forall k :: |r| <= k < |s| ==> IsSpace(s[k])
    ensures |r| > 0 ==> !IsSpace(r[|r| - 1])
  {
    if |s| > 0 && IsSpace(s[|s| - 1]) then StripEnd(s[..|s| - 1]) else s
  }

  /** `temp.strip()`: a slice of s, with whitespace at neither end. */
  function Strip(s: string): (r: string)
    ensures |r| <= |s|
    ensures forall c :: c in r ==> c in s
    ensures |r| > 0 ==> !IsSpace(r[0]) && !IsSpace(r[|r| - 1])
  {
    var left := StripStart(s);
    var r := StripEnd(left);
    SliceKeepsChars(s, |s| - |left|, |s|);
    SliceKeepsChars(left, 0, |r|);
    assert |r| > 0 ==> r[0] == left[0];
    r
  }

  lemma SliceKeepsChars(s: string, i: nat, j: nat)
    requires i <= j <= |s|
    ensures forall c :: c in s[i..j] ==> c in s
  {
    forall c | c in s[i..j]
      ensures c in s
    {
      var k :| 0 <= k < j - i && s[i..j][k] == c;
      assert s[i + k] == c;
    }
  }

  /** Two spaces in a row somewhere in s. */
  predicate HasDoubleSpace(s: string)
  {
    exists k :: 0 <= k < |s| - 1 && s[k] == ' ' && s[k + 1] == ' '
  }

  /**
   * `REGEX["duplicate_spaces"].sub(" ", temp)`: every run of two or more
   * spaces becomes one space, so a space right after a space goes.
   */
  function CollapseSpaces(s: string): (r: string)
    ensures !HasDoubleSpace(r)
    ensures |r| <= |s|
    ensures forall c :: c in r ==> c in s
    ensures |s| > 0 ==> |r| > 0 && r[0] == s[0] && r[|r| - 1] == s[|s| - 1]
  {
    if |s| <= 1 then s
    else if s[0] == ' ' && s[1] == ' ' then CollapseSpaces(s[1..])
    else
      var rest := CollapseSpaces(s[1..]);
      assert !HasDoubleSpace([s[0]] + rest) by {
        forall k | 0 <= k < |rest|
          ensures !(([s[0]] + rest)[k] == ' ' && ([s[0]] + rest)[k + 1] == ' ')
        {
          if k > 0 {
            assert ([s[0]] + rest)[k] == rest[k - 1] && ([s[0]] + rest)[k + 1] == rest[k];
          }
        }
      }
      [s[0]] + rest
  }

  /** A string without double spaces is left as it is, so collapsing twice is collapsing once. */
  lemma {:induction false} CollapseLeavesSingleSpaces(s: string)
    requires !HasDoubleSpace(s)
    ensures CollapseSpaces(s) == s
  {
    if |s| > 1 {
      assert !(s[0] == ' ' && s[1] == ' ');
      assert !HasDoubleSpace(s[1..]) by {
        forall k | 0 <= k < |s[1..]| - 1
          ensures !(s[1..][k] == ' ' && s[1..][k + 1] == ' ')
        {
          assert s[1..][k] == s[k + 1] && s[1..][k + 1] == s[k + 2];
        }
      }
      CollapseLeavesSingleSpaces(s[1..]);
      assert s == [s[0]] + s[1..];
    }
  }

  lemma CollapseIsIdempotent(s: string)
    ensures CollapseSpaces(CollapseSpaces(s)) == CollapseSpaces(s)
  {
    CollapseLeavesSingleSpaces(CollapseSpaces(s));
  }

  /** `temp.replace(";", ",")`. */
  function ReplaceSemicolons(s: string): (r: string)
    ensures |r| == |s|
    ensures forall k :: 0 <= k < |s| ==> r[k] == (if s[k] == ';' then ',' else s[k])
  {
    seq(|s|, k requires 0 <= k < |s| => if s[k] == ';' then ',' else s[k])
  }

  /**
   * The quote as the script stores it: no newline, no ';' (so the
   * ';'-separated table keeps its columns), no two spaces in a row, and no
   * whitespace at either end.
   */
  function NormaliseQuote(raw: string): (q: string)
    ensures forall k :: 0 <= k < |q| ==> q[k] != '\n' && q[k] != ';'
    ensures !HasDoubleSpace(q)
    ensures |q| > 0 ==> !IsSpace(q[0]) && !IsSpace(q[|q| - 1])
  {
    var collapsed := CollapseSpaces(Strip(RemoveNewlines(raw)));
    assert '\n' !in collapsed;
    ReplacingKeeps(collapsed);
    ReplaceSemicolons(collapsed)
  }

  /** Replacing ';' by ',' removes every ';' and keeps the other three properties. */
  lemma ReplacingKeeps(s: string)
    requires '\n' !in s && !HasDoubleSpace(s)
    requires |s| > 0 ==> !IsSpace(s[0]) && !IsSpace(s[|s| - 1])
    ensures var q := ReplaceSemicolons(s);
      && (forall k :: 0 <= k < |q| ==> q[k] != '\n' && q[k] != ';')
      && !HasDoubleSpace(q)
      && (|q| > 0 ==> !IsSpace(q[0]) && !IsSpace(q[|q| - 1]))
  {
    var q := ReplaceSemicolons(s);
    forall k | 0 <= k < |q|
      ensures q[k] != '\n' && q[k] != ';'
    {
      assert s[k] in s;
    }
    assert !HasDoubleSpace(q) by {
      forall k | 0 <= k < |q| - 1
        ensures !(q[k] == ' ' && q[k + 1] == ' ')
      {
        assert !(s[k] == ' ' && s[k + 1] == ' ');
      }
    }
  }

  // ---------------------------------------------------------------------------
  // The table (lines 85-91)
  // ---------------------------------------------------------------------------

  /**
   * One parsed file, every field already text: `filename`, `energy`,
   * `distance`, `angle` and `quote`.
   */
  datatype Record = Record(filename: string, energy: string, distance: string, angle: string, quote: string)

  const Header: seq<string> := ["filename", "energy", "distance", "angle", "quote"]

  /** The row `data_to_table` writes for one record. */
  function Row(d: Record): (row: seq<string>)
    ensures |row| == 5
    ensures row[0] == d.filename && row[1] == d.energy && row[2] == d.distance && row[3] == d.angle && row[4] == d.quote
  {
    [d.filename, d.energy, d.distance, d.angle, d.quote]
  }

  /** The table as a value: the header, then the records' rows in order. */
  function Table(data: seq<Record>): (t: seq<seq<string>>)
    ensures |t| == |data| + 1 && forall k :: 0 <= k < |t| ==> |t[k]| == 5
  {
    [Header] + seq(|data|, k requires 0 <= k < |data| => Row(data[k]))
  }

  /** `data_to_table(data)`: the header row, then one row per record, in order. */
  method DataToTable(data: seq<Record>) returns (table: seq<seq<string>>)
    ensures table == Table(data)
    ensures |table| == |data| + 1 && table[0] == Header
    ensures forall k :: 0 <= k < |data| ==> table[k + 1] == Row(data[k])
  {
    table := [Header];
    var i := 0;
    while i < |data|
      invariant 0 <= i <= |data|
      invariant |table| == i + 1 && table[0] == Header
      invariant forall k :: 0 <= k < i ==> table[k + 1] == Row(data[k])
    {
      table := table + [Row(data[i])];
      i := i + 1;
    }
  }

  // ---------------------------------------------------------------------------
  // The command line (lines 96-115)
  // ---------------------------------------------------------------------------

  predicate IsFlag(arg: string)
  {
    arg == "--full" || arg == "--quotes"
  }

  /** The arguments that are not flags, in their order. */
  function Positional(args: seq<string>): (r: seq<string>)
    ensures |r| <= |args|
    ensures forall a :: a in r <==> a in args && !IsFlag(a)
  {
    if |args| == 0 then []
    else if IsFlag(args[0]) then Positional(args[1..])
    else [args[0]] + Positional(args[1..])
  }

  /** Keeping the non-flags keeps their order: the split distributes over concatenation. */
  lemma {:induction false} PositionalAppend(a: seq<string>, b: seq<string>)
    ensures Positional(a + b) == Positional(a) + Positional(b)
  {
    if |a| == 0 {
      assert a + b == b;
    } else {
      assert (a + b)[0] == a[0] && (a + b)[1..] == a[1..] + b;
      PositionalAppend(a[1..], b);
    }
  }

  /** `sys.argv[1:]`. */
  function Arguments(argv: seq<string>): seq<string>
  {
    if |argv| == 0 then [] else argv[1..]
  }

  /** The loop of lines 99-105: the two flags set their switches and every other argument is kept. */
  method SplitArguments(argv: seq<string>) returns (args: seq<string>, fullOutput: bool, quotesOnly: bool)
    ensures args == Positional(Arguments(argv))
    ensures fullOutput <==> "--full" in Arguments(argv)
    ensures quotesOnly <==> "--quotes" in Arguments(argv)
  {
    var rest := Arguments(argv);
    args := [];
    fullOutput := false;
    quotesOnly := false;
    var i := 0;
    while i < |rest|
      invariant 0 <= i <= |rest|
      invariant args == Positional(rest[..i])
      invariant fullOutput <==> "--full" in rest[..i]
      invariant quotesOnly <==> "--quotes" in rest[..i]
    {
      var arg := rest[i];
      assert rest[..i + 1] == rest[..i] + [arg];
      PositionalAppend(rest[..i], [arg]);
      assert Positional([arg]) == if IsFlag(arg) then [] else [arg] by {
        assert [arg][1..] == [];
      }
      if arg == "--full" {
        fullOutput := true;
      } else if arg == "--quotes" {
        quotesOnly := true;
      } else {
        args := args + [arg];
      }
      i := i + 1;
    }
    assert rest[..|rest|] == rest;
  }

  /** What the script writes. */
  datatype OutputMode = QuotesOnly | FullTable | EnergyGeometry

  datatype Command = Command(inputFolder: string, outputFile: string, mode: OutputMode)

  datatype CommandError = WrongArgumentCount | InvalidInputFolder(folder: string)

  /**
   * Lines 108-115 and the branch of lines 126-136: exactly two arguments
   * besides the flags, the first a directory (`os.path.isdir` is the
   * parameter `isDir`); `--quotes` wins over `--full`.
   */
  function ParseCommand(argv: seq<string>, isDir: string -> bool): (r: Result<Command, CommandError>)
    ensures r.Ok? <==> |Positional(Arguments(argv))| == 2 && isDir(Positional(Arguments(argv))[0])
    ensures |Positional(Arguments(argv))| != 2 ==> r == Err(WrongArgumentCount)
    ensures r.Ok? ==>
      r.value.inputFolder == Positional(Arguments(argv))[0] && r.value.outputFile == Positional(Arguments(argv))[1]
    ensures r.Ok? ==> (r.value.mode == QuotesOnly <==> "--quotes" in Arguments(argv))
    ensures r.Ok? ==> (r.value.mode == FullTable <==> "--full" in Arguments(argv) && "--quotes" !in Arguments(argv))
  {
    var args := Positional(Arguments(argv));
    if |args| != 2 then Err(WrongArgumentCount)
    else if !isDir(args[0]) then Err(InvalidInputFolder(args[0]))
    else
      var rest := Arguments(argv);
      var mode := if "--quotes" in rest then QuotesOnly else if "--full" in rest then FullTable else EnergyGeometry;
      Ok(Command(args[0], args[1], mode))
  }

  // ---------------------------------------------------------------------------
  // What is saved (lines 126-136)
  // ---------------------------------------------------------------------------

  /** `data[:,1:4]`: the energy, distance and angle columns, the header row included. */
  function DataColumns(table: seq<seq<string>>): (r: seq<seq<string>>)
    requires forall k :: 0 <= k < |table| ==> |table[k]| == 5
    ensures |r| == |table|
    ensures forall k :: 0 <= k < |r| ==> r[k] == [table[k][1], table[k][2], table[k][3]]
  {
    seq(|table|, k requires 0 <= k < |table| => table[k][1..4])
  }

  /** The default output: the header `energy; distance; angle`, then those fields of each record in order. */
  lemma DataColumnsOfTable(data: seq<Record>)
    ensures DataColumns(Table(data))[0] == ["energy", "distance", "angle"]
    ensures forall k :: 0 <= k < |data| ==>
      DataColumns(Table(data))[k + 1] == [data[k].energy, data[k].distance, data[k].angle]
  {
  }

  /** `lhs < rhs` on Python strings: code point by code point, a proper prefix first. */
  predicate StringLess(lhs: string, rhs: string)
  {
    if |lhs| == 0 then |rhs| > 0
    else if |rhs| == 0 then false
    else if lhs[0] != rhs[0] then lhs[0] < rhs[0]
    else StringLess(lhs[1..], rhs[1..])
  }

  lemma {:induction false} StringLessIrreflexive(s: string)
    ensures !StringLess(s, s)
  {
    if |s| > 0 {
      StringLessIrreflexive(s[1..]);
    }
  }

  lemma {:induction false} StringLessTotal(lhs: string, rhs: string)
    requires lhs != rhs
    ensures StringLess(lhs, rhs) || StringLess(rhs, lhs)
  {
    if |lhs| > 0 && |rhs| > 0 && lhs[0] == rhs[0] {
      assert lhs == [lhs[0]] + lhs[1..] && rhs == [rhs[0]] + rhs[1..];
      StringLessTotal(lhs[1..], rhs[1..]);
    }
  }

  lemma {:induction false} StringLessTransitive(a: string, b: string, c: string)
    requires StringLess(a, b) && StringLess(b, c)
    ensures StringLess(a, c)
  {
    if |a| > 0 && a[0] == b[0] && b[0] == c[0] {
      StringLessTransitive(a[1..], b[1..], c[1..]);
    }
  }

  /** Each entry comes before every later one, so no entry appears twice. */
  predicate StrictlyAscending(s: seq<string>)
  {
    forall i, j :: 0 <= i < j < |s| ==> StringLess(s[i], s[j])
  }

  /** The entries of a list. */
  function Elements(s: seq<string>): set<string>
  {
    set x | x in s
  }

  lemma ElementsCons(a: string, s: seq<string>)
    ensures Elements([a] + s) == {a} + Elements(s)
  {
    assert forall y :: y in [a] + s <==> y == a || y in s;
  }

  /** x put in its place in an ascending list, unless it is already there. */
  function Insert(x: string, s: seq<string>): (r: seq<string>)
    requires StrictlyAscending(s)
    ensures StrictlyAscending(r)
    ensures Elements(r) == Elements(s) + {x}
  {
    if |s| == 0 then [x]
    else if x == s[0] then s
    else if StringLess(x, s[0]) then
      ElementsCons(x, s);
      PrependAscending(x, s);
      [x] + s
    else
      StringLessTotal(x, s[0]);
      var rest := Insert(x, s[1..]);
      assert x in rest;
      HeadBelowRest(s, x, rest);
      PrependAscending(s[0], rest);
      assert s == [s[0]] + s[1..];
      ElementsCons(s[0], rest);
      ElementsCons(s[0], s[1..]);
      [s[0]] + rest
  }

  /** An entry below the head of an ascending list can go in front of it. */
  lemma PrependAscending(a: string, s: seq<string>)
    requires StrictlyAscending(s)
    requires |s| > 0 ==> StringLess(a, s[0])
    ensures StrictlyAscending([a] + s)
  {
    var r := [a] + s;
    forall i, j | 0 <= i < j < |r|
      ensures StringLess(r[i], r[j])
    {
      if i == 0 && j > 1 {
        StringLessTransitive(a, s[0], s[j - 1]);
      } else if i > 0 {
        assert r[i] == s[i - 1] && r[j] == s[j - 1];
      }
    }
  }

  /** The head of an ascending list comes before x and every later entry, so before the head of their insertion. */
  lemma HeadBelowRest(s: seq<string>, x: string, rest: seq<string>)
    requires StrictlyAscending(s) && |s| > 0 && StringLess(s[0], x)
    requires |rest| > 0 && Elements(rest) == Elements(s[1..]) + {x}
    ensures StringLess(s[0], rest[0])
  {
    assert rest[0] in Elements(rest);
    if rest[0] != x {
      var m :| 0 <= m < |s[1..]| && s[1..][m] == rest[0];
      assert s[m + 1] == rest[0];
    }
  }

  /** `sorted(list(set(quotes)))`. */
  function SortedUnique(quotes: seq<string>): (r: seq<string>)
    ensures StrictlyAscending(r)
    ensures Elements(r) == Elements(quotes)
  {
    if |quotes| == 0 then []
    else
      var last := quotes[|quotes| - 1];
      var init := quotes[..|quotes| - 1];
      assert quotes == init + [last];
      Insert(last, SortedUnique(init))
  }

  /** `data[:,4]`: the quote column, the header row included. */
  function QuoteColumn(table: seq<seq<string>>): (r: seq<string>)
    requires forall k :: 0 <= k < |table| ==> |table[k]| == 5
    ensures |r| == |table| && forall k :: 0 <= k < |r| ==> r[k] == table[k][4]
  {
    seq(|table|, k requires 0 <= k < |table| => table[k][4])
  }

  /** The records' quotes, in order. */
  function Quotes(data: seq<Record>): (q: seq<string>)
    ensures |q| == |data| && forall k :: 0 <= k < |data| ==> q[k] == data[k].quote
  {
    seq(|data|, k requires 0 <= k < |data| => data[k].quote)
  }

  /** The quote column of the table is the header cell, then the records' quotes. */
  lemma QuoteColumnOfTable(data: seq<Record>)
    ensures QuoteColumn(Table(data)) == ["quote"] + Quotes(data)
  {
  }

  /**
   * The `--quotes` output: strictly ascending, so free of duplicates, and
   * holding exactly the header cell "quote" and the quotes of the records.
   */
  lemma SavedQuotes(data: seq<Record>)
    ensures StrictlyAscending(SortedUnique(QuoteColumn(Table(data))))
    ensures forall q :: q in SortedUnique(QuoteColumn(Table(data))) <==> q == "quote" || q in Quotes(data)
  {
    QuoteColumnOfTable(data);
    ElementsCons("quote", Quotes(data));
    var saved := SortedUnique(QuoteColumn(Table(data)));
    assert forall q :: q in saved <==> q in Elements(saved);
  }

  /** Strictly ascending lists with the same entries are the same list: the sorted order is unique. */
  lemma {:induction false} AscendingIsUnique(s: seq<string>, t: seq<string>)
    requires StrictlyAscending(s) && StrictlyAscending(t)
    requires Elements(s) == Elements(t)
    ensures s == t
  {
    if |s| > 0 && |t| > 0 {
      assert s[0] in Elements(t) && t[0] in Elements(s);
      var i :| 0 <= i < |s| && s[i] == t[0];
      var j :| 0 <= j < |t| && t[j] == s[0];
      if s[0] != t[0] {
        assert StringLess(s[0], s[i]) && StringLess(t[0], t[j]);
        StringLessTransitive(s[0], t[0], s[0]);
        StringLessIrreflexive(s[0]);
        assert false;
      }
      var s', t' := s[1..], t[1..];
      assert s == [s[0]] + s' && t == [t[0]] + t';
      forall y | y in s'
        ensures y in t'
      {
        var a :| 0 <= a < |s'| && s'[a] == y;
        assert StringLess(s[0], s[a + 1]);
        assert y in Elements(t);
        if y == t[0] {
          StringLessIrreflexive(y);
        }
      }
      forall y | y in t'
        ensures y in s'
      {
        var a :| 0 <= a < |t'| && t'[a] == y;
        assert StringLess(t[0], t[a + 1]);
        assert y in Elements(s);
        if y == s[0] {
          StringLessIrreflexive(y);
        }
      }
      assert Elements(s') == Elements(t');
      AscendingIsUnique(s', t');
    } else if |s| > 0 {
      HeadIsElement(s);
    } else if |t| > 0 {
      HeadIsElement(t);
    }
  }

  lemma HeadIsElement(s: seq<string>)
    requires |s| > 0
    ensures s[0] in Elements(s)
  {
  }

  // ---------------------------------------------------------------------------
  // The ';'-separated file
  // ---------------------------------------------------------------------------

  /**
   * One line of `np.savetxt(..., delimiter=';')`: the cells joined by ';'.
   * The line starts with the first cell, and when no cell holds a ';' it has
   * exactly one ';' between each two neighbouring cells.
   */
  function JoinCells(cells: seq<string>): (line: string)
    ensures |cells| >= 1 ==> cells[0] <= line
    ensures (forall k :: 0 <= k < |cells| ==> ';' !in cells[k]) ==>
      multiset(line)[';'] == if |cells| == 0 then 0 else |cells| - 1
  {
    if |cells| == 0 then ""
    else if |cells| == 1 then cells[0]
    else cells[0] + ";" + JoinCells(cells[1..])
  }

  /** Reading a line back: the text between the ';' separators. */
  function SplitCells(line: string): (cells: seq<string>)
    ensures |cells| >= 1
    decreases |line|
  {
    if ';' !in line then [line]
    else
      var k := FirstSemicolon(line);
      [line[..k]] + SplitCells(line[k + 1..])
  }

  function FirstSemicolon(line: string): (k: nat)
    requires ';' in line
    ensures k < |line| && line[k] == ';' && ';' !in line[..k]
  {
    if line[0] == ';' then 0
    else
      var k := FirstSemicolon(line[1..]);
      assert line[..k + 1] == [line[0]] + line[1..][..k];
      k + 1
  }

  /** A line whose cells hold no ';' splits back into exactly those cells. */
  lemma {:induction false} SplitJoin(cells: seq<string>)
    requires |cells| >= 1
    requires forall k :: 0 <= k < |cells| ==> ';' !in cells[k]
    ensures SplitCells(JoinCells(cells)) == cells
  {
    if |cells| > 1 {
      var line := JoinCells(cells);
      var tail := JoinCells(cells[1..]);
      assert line == cells[0] + ";" + tail;
      assert line[|cells[0]|] == ';' && line[..|cells[0]|] == cells[0];
      assert ';' in line;
      var k := FirstSemicolon(line);
      assert k == |cells[0]|;
      assert line[k + 1..] == tail;
      SplitJoin(cells[1..]);
    }
  }

  /**
   * Because quotes are normalised, a record whose other fields hold no ';'
   * is read back from the full output as the five cells that were written.
   */
  lemma FullRowReadsBack(d: Record, rawQuote: string)
    requires d.quote == NormaliseQuote(rawQuote)
    requires ';' !in d.filename && ';' !in d.energy && ';' !in d.distance && ';' !in d.angle
    ensures SplitCells(JoinCells(Row(d))) == Row(d)
  {
    QuoteHasNoSemicolon(rawQuote);
    RowHasNoSemicolon(d);
    SplitJoin(Row(d));
  }

  lemma QuoteHasNoSemicolon(raw: string)
    ensures ';' !in NormaliseQuote(raw)
  {
  }

  lemma RowHasNoSemicolon(d: Record)
    requires ';' !in d.filename && ';' !in d.energy && ';' !in d.distance && ';' !in d.angle && ';' !in d.quote
    ensures forall k :: 0 <= k < |Row(d)| ==> ';' !in Row(d)[k]
  {
  }
}
