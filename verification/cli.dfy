/** The branch in `main` that picks a query mode from the parsed command
    line, and what each mode leaves on stdout and stderr. */
module Cli {
  import opened Wrappers
  import opened Decimal
  import opened Regex
  import opened Sorting
  import opened StatusTable
  import opened Format
  import opened HttpCode

  /** The parsed command line: the optional positional `code`, the optional
      `--search` text and the `--plain` flag. */
  datatype Args = Args(code: Option<string>, search: Option<string>, plain: bool)

  /** The inputs this model describes exactly: a search text inside the
      regular-expression fragment and ASCII (so that ASCII case folding is
      Python's, given that every string of `STATUS_CODES` is ASCII too), and an ASCII code (so that `\d` and `int` see only ASCII
      digits) that is three digits or a pattern inside the fragment once `x`
      is rewritten. */
  predicate Supported(args: Args) {
    if args.search.Some? then Compile(args.search.value).Some? && IsAscii(args.search.value)
    else if args.code.Some? && args.code.value != "" then
      IsAscii(args.code.value) && (IsThreeDigitCode(args.code.value) || PatternRegex(args.code.value).Some?)
    else true
  }

  /** `main()` after argument parsing, consulting `table`; the program
      itself always passes `STATUS_CODES`. */
  function Run(table: seq<Row>, args: Args): (r: Output)
    requires ValidTable(table) && Supported(args)
    ensures r.Failure? ==> r.stdout == ""
    ensures args.search.None? && (args.code.None? || args.code.value == "") ==> r.Success?
  {
    if args.search.Some? then PrintSearch(table, args.search.value, args.plain)
    else if args.code.Some? && args.code.value != "" then
      var code := args.code.value;
      if IsThreeDigitCode(code) then PrintCode(table, CodeValue(code), args.plain)
      else PrintFilteredCodes(table, code)
    else PrintCodes(table, Codes(table), args.plain)
  }

  /** A search text, when given, decides the output whatever the code says:
      the blocks of the rows it selects, in table order, or the search
      failure message when it selects none. */
  lemma SearchMode(table: seq<Row>, args: Args)
    requires ValidTable(table) && args.search.Some? && Supported(args)
    ensures var text := args.search.value;
      var rows := SearchRows(table, text);
      Run(table, args) == if rows == [] then Failure("", "No status code found for search: " + text + "\n")
                   else Success(Render(rows, args.plain))
  {
  }

  /** With no search text, three digits (optionally followed by a newline)
      look up one code: the block of its row, or a failure that echoes the
      code as an integer, so leading zeros are lost. */
  lemma ExactMode(table: seq<Row>, args: Args)
    requires ValidTable(table)
    requires args.search.None? && args.code.Some? && IsThreeDigitCode(args.code.value)
    ensures Supported(args) && |args.code.value| >= 3
    ensures var s := args.code.value;
      && (Run(table, args).Success? <==> CodeValue(s) in Codes(table))
      && (forall i :: 0 <= i < |table| && table[i].code == CodeValue(s) ==>
            Run(table, args) == Success(Block(table[i], args.plain)))
      && (Run(table, args).Failure? ==>
            Run(table, args) == Failure("", "No description found for code: " + StripLeadingZeros(s[..3]) + "\n"))
      && (s[0] == '0' ==> Run(table, args).Failure?)
  {
    var s := args.code.value;
    ThreeDigitCodeAscii(s);
    ThreeDigitCodeShape(s);
    assert Run(table, args) == PrintCode(table, CodeValue(s), args.plain);
    if s[0] == '0' {
      LeadingZeroBelow100(s);
      BelowTable(table, CodeValue(s));
    }
  }

  /** What the model's ASCII-only classifier accepts is ASCII: three digits
      and perhaps a newline. */
  lemma ThreeDigitCodeAscii(s: string)
    requires IsThreeDigitCode(s)
    ensures IsAscii(s)
  {
    ThreeDigitCodeShape(s);
  }

  /** A code written with a leading zero is below 100. */
  lemma LeadingZeroBelow100(s: string)
    requires IsThreeDigitCode(s) && s[0] == '0'
    ensures CodeValue(s) < 100
  {
    ThreeDigitCodeShape(s);
    var d := s[..3];
    assert d[0] == '0';
    if d != "000" {
      assert StripLeadingZeros(d) == StripLeadingZeros(d[1..]);
    }
    NatStrThreeDigits(CodeValue(s));
  }

  /** Any other non-empty code is a pattern: the blocks of the rows whose
      code text the rewritten pattern matches, always decorated whatever
      `--plain` says, or the pattern failure message. */
  lemma PatternMode(table: seq<Row>, args: Args)
    requires ValidTable(table) && args.search.None? && args.code.Some?
    requires var p := args.code.value; p != "" && !IsThreeDigitCode(p) && IsAscii(p) && PatternRegex(p).Some?
    ensures Supported(args)
    ensures var p := args.code.value;
      var rows := PatternRows(table, p);
      Run(table, args) == if rows == [] then Failure("", "No code found corresponding to: " + p + "\n")
                   else Success(Render(rows, false))
  {
  }

  /** For a pattern of digits, `x` and `.`, the selected rows are those whose
      three-digit code the pattern matches position by position; a pattern
      of any other length selects nothing and fails. */
  lemma GlobPatternMode(table: seq<Row>, args: Args)
    requires ValidTable(table) && args.search.None? && args.code.Some?
    requires var p := args.code.value; p != "" && !IsThreeDigitCode(p) && IsAscii(p) && IsGlob(p)
    ensures Supported(args)
    ensures var p := args.code.value;
      var rows := FilterRows(table, GlobTest(p));
      && Run(table, args) == (if rows == [] then Failure("", "No code found corresponding to: " + p + "\n")
                              else Success(Render(rows, false)))
      && (|p| != 3 ==> Run(table, args) == Failure("", "No code found corresponding to: " + p + "\n"))
  {
    PatternSelectsGlob(table, args.code.value);
    PatternMode(table, args);
    if |args.code.value| != 3 {
      GlobWrongLength(table, args.code.value);
    }
  }

  /** `hc Nxx` lists the rows of status class N in code order, decorated;
      a digit with no class in the table gives the pattern failure. */
  lemma ClassPatternMode(args: Args, digit: nat)
    requires digit < 10 && args.search.None? && args.code == Some(ClassPattern(digit))
    ensures Supported(args) && ValidTable(StatusCodes)
    ensures Run(StatusCodes, args) ==
      if 1 <= digit <= 5 then Success(Render(FilterRows(StatusCodes, InClass(digit)), false))
      else Failure("", "No code found corresponding to: " + ClassPattern(digit) + "\n")
  {
    ClassPatternShape(digit);
    TableWellFormed();
    ClassPatternRows(StatusCodes, digit);
    ClassSelection(digit);
    PatternMode(StatusCodes, args);
  }

  /** `Nxx` is a non-empty ASCII text that the classifier rejects. */
  lemma ClassPatternShape(digit: nat)
    requires digit < 10
    ensures var p := ClassPattern(digit); p != "" && !IsThreeDigitCode(p) && IsAscii(p)
  {
    var p := ClassPattern(digit);
    ThreeDigitCodeShape(p);
    assert !IsDigit(p[1]);
    assert p == [DigitChar(digit), 'x', 'x'];
  }

  /** The example from the tool's own help: `hc 1xx` prints the blocks of
      100, 101 and 102, whatever `--plain` says. */
  lemma InformationalExample(plain: bool)
    ensures Supported(Args(Some("1xx"), None, plain)) && ValidTable(StatusCodes)
    ensures var rows := FilterRows(StatusCodes, InClass(1));
      && Run(StatusCodes, Args(Some("1xx"), None, plain)) == Success(Render(rows, false))
      && Codes(rows) == [100, 101, 102]
  {
    assert ClassPattern(1) == "1xx";
    ClassPatternMode(Args(Some("1xx"), None, plain), 1);
    InformationalCodes();
  }

  lemma InformationalCodes()
    ensures Codes(FilterRows(StatusCodes, InClass(1))) == [100, 101, 102]
  {
    ClassRows(1);
    InformationalCodesAre();
  }

  lemma InformationalCodesAre()
    ensures Codes(Informational) == [100, 101, 102]
  {
  }

  /** `hc 404 --plain` prints the Not Found block with the bare code. */
  lemma NotFoundExample(args: Args)
    requires args == Args(Some("404"), None, true)
    ensures Supported(args) && ValidTable(StatusCodes)
    ensures Run(StatusCodes, args) == Success(MsgFmt("404", "Not Found", "Nothing matches the given URI"))
  {
    NotFoundCode(args.code.value);
    NotFoundRow();
    NotFoundBlock();
    TableWellFormed();
    ExactMode(StatusCodes, args);
  }

  lemma NotFoundCode(s: string)
    requires s == "404"
    ensures IsThreeDigitCode(s) && CodeValue(s) == 404
  {
    ThreeDigitCodeShape(s);
    assert s[..3] == s;
    NatStrHundreds(404);
    ValueOfNatStr(404);
  }

  lemma NotFoundRow()
    ensures StatusCodes[26] == Row(404, Entry("Not Found", "Nothing matches the given URI"))
  {
  }

  lemma NotFoundBlock()
    ensures Block(Row(404, Entry("Not Found", "Nothing matches the given URI")), true)
      == MsgFmt("404", "Not Found", "Nothing matches the given URI")
  {
    NatStrHundreds(404);
  }

  /** `hc 099` loses its leading zero in the failure message. */
  lemma LeadingZeroExample(args: Args)
    requires args.search.None? && args.code == Some("099")
    ensures Supported(args) && ValidTable(StatusCodes)
    ensures Run(StatusCodes, args) == Failure("", "No description found for code: " + "99" + "\n")
  {
    ZeroNinetyNine(args.code.value);
    TableWellFormed();
    ExactMode(StatusCodes, args);
  }

  lemma ZeroNinetyNine(s: string)
    requires s == "099"
    ensures IsThreeDigitCode(s) && s[0] == '0' && StripLeadingZeros(s[..3]) == "99"
  {
    ThreeDigitCodeShape(s);
    assert s[..3] == s;
  }

  /** More than three digits are not a code but a pattern, and no key has
      that many digits, so the run fails with the pattern message. */
  lemma LongCodeFails(table: seq<Row>, args: Args)
    requires ValidTable(table) && args.search.None? && args.code.Some?
    requires |args.code.value| > 3 && AllDigits(args.code.value)
    ensures Supported(args)
    ensures Run(table, args) == Failure("", "No code found corresponding to: " + args.code.value + "\n")
  {
    var s := args.code.value;
    ThreeDigitCodeShape(s);
    assert s[3..][0] == s[3];
    assert IsGlob(s);
    GlobPatternMode(table, args);
  }

  /** `hc 1404` is not three digits, so it is a pattern, which no code matches. */
  lemma FourDigitExample(args: Args)
    requires args.search.None? && args.code == Some("1404")
    ensures Supported(args) && ValidTable(StatusCodes)
    ensures Run(StatusCodes, args) == Failure("", "No code found corresponding to: " + "1404" + "\n")
  {
    FourDigitPattern(args.code.value);
    TableWellFormed();
    GlobPatternMode(StatusCodes, args);
  }

  lemma FourDigitPattern(s: string)
    requires s == "1404"
    ensures s != "" && !IsThreeDigitCode(s) && IsGlob(s) && |s| == 4
  {
    ThreeDigitCodeShape(s);
  }

  /** No code, or an empty one, lists every row of the table in order. */
  lemma ListAll(table: seq<Row>, args: Args)
    requires ValidTable(table) && args.search.None? && (args.code.None? || args.code.value == "")
    ensures Supported(args)
    ensures Run(table, args) == Success(Render(table, args.plain))
  {
    FilterRowsAll(table, AnyRow);
    PrintSelectedRows(table, AnyRow, args.plain);
  }

  /** An empty search text matches every entry, so it lists the whole
      (non-empty) table. */
  lemma EmptySearchListsAll(table: seq<Row>, args: Args)
    requires ValidTable(table) && table != [] && args.search == Some("")
    ensures Supported(args)
    ensures Run(table, args) == Run(table, Args(None, None, args.plain))
  {
    assert Compile("") == Some([]);
    FilterRowsAll(table, SearchTest([]));
    SearchMode(table, args);
    ListAll(table, Args(None, None, args.plain));
  }

  /** `out` is the blocks of a run of rows of `table` whose codes strictly
      ascend, so each code in it appears once. */
  ghost predicate OrderedRun(table: seq<Row>, out: string) {
    exists rows: seq<Row>, plain: bool ::
      && (forall i :: 0 <= i < |rows| ==> rows[i] in table)
      && StrictlyAscending(Codes(rows))
      && out == Render(rows, plain)
  }

  /** Every successful run writes the blocks of table rows in ascending
      code order, each at most once. */
  lemma SuccessListsRowsInOrder(table: seq<Row>, args: Args)
    requires ValidTable(table) && Supported(args)
    ensures Run(table, args).Success? ==> OrderedRun(table, Run(table, args).stdout)
  {
    if args.search.Some? {
      SearchMode(table, args);
      SelectionIsOrderedRun(table, SearchTest(Compile(args.search.value).value), args.plain);
    } else if args.code.Some? && args.code.value != "" {
      var s := args.code.value;
      if IsThreeDigitCode(s) {
        ExactMode(table, args);
        if CodeValue(s) in Codes(table) {
          var i :| 0 <= i < |table| && table[i].code == CodeValue(s);
          SingleRowIsOrderedRun(table, i, args.plain);
        }
      } else {
        PatternMode(table, args);
        SelectionIsOrderedRun(table, PatternTest(PatternRegex(s).value), false);
      }
    } else {
      ListAll(table, args);
      SelectionIsOrderedRun(table, AnyRow, args.plain);
      FilterRowsAll(table, AnyRow);
    }
  }

  lemma SelectionIsOrderedRun(table: seq<Row>, keep: Row -> bool, plain: bool)
    requires ValidTable(table)
    ensures OrderedRun(table, Render(FilterRows(table, keep), plain))
  {
    var rows := FilterRows(table, keep);
    FilterRowsAscending(table, keep);
    assert forall i :: 0 <= i < |rows| ==> rows[i] in table;
    assert OrderedRun(table, Render(rows, plain)) by {
      assert StrictlyAscending(Codes(rows));
    }
  }

  lemma SingleRowIsOrderedRun(table: seq<Row>, i: int, plain: bool)
    requires 0 <= i < |table|
    ensures OrderedRun(table, Block(table[i], plain))
  {
    var rows := [table[i]];
    assert Render(rows, plain) == Block(table[i], plain) + "";
    assert StrictlyAscending(Codes(rows));
  }

  function AnyRow(r: Row): bool {
    true
  }
}
