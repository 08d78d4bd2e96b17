/** The query engine of `hc`: the three query modes (exact code, code
    pattern, description search) and listing. Each operation takes the table
    it consults, a `ValidTable` as `STATUS_CODES` is; `main` (module `Cli`)
    passes `STATUS_CODES` itself.

    Writing to stdout and stderr and leaving the process are modelled by the
    returned `Output`: `Success` is everything written to stdout and exit
    status 0; `Failure` is what reached stdout before `_exit`, the message
    `_exit` writes to stderr, and exit status -1. */
module HttpCode {
  import opened Wrappers
  import opened Decimal
  import opened Regex
  import opened Sorting
  import opened StatusTable
  import opened Format

  datatype Output = Success(stdout: string) | Failure(stdout: string, stderr: string)

  // ----- Classifying the positional argument -----

  /** `re.compile(r'\d{3}$')`; `\d{3}` is three `\d` in a row. */
  const ThreeDigitRegex: seq<Atom> := [Digit, Digit, Digit, End]

  /** `_IS_THREE_DIGIT_CODE(s)` finds a match. */
  predicate IsThreeDigitCode(s: string) {
    Matches(ThreeDigitRegex, s, false)
  }

  /** Three digits, optionally followed by one newline, which `$` lets through. */
  lemma ThreeDigitCodeShape(s: string)
    ensures IsThreeDigitCode(s) <==> |s| >= 3 && AllDigits(s[..3]) && (|s| == 3 || s[3..] == "\n")
  {
    if |s| >= 3 {
      assert s[1..][1..][1..] == s[3..];
    }
  }

  /** `int(code)` for a string the classifier accepted; `int` ignores the
      trailing newline. */
  function CodeValue(s: string): (n: nat)
    requires IsThreeDigitCode(s)
    ensures n <= 999
    ensures IntStr(n) == StripLeadingZeros(s[..3])
  {
    ThreeDigitCodeShape(s);
    NatStrOfValueStrips(s[..3]);
    NatStrThreeDigits(Value(s[..3]));
    Value(s[..3])
  }

  // ----- Exact mode -----

  /** `_print_code(code, noformat)`. */
  function PrintCode(table: seq<Row>, code: int, plain: bool): (r: Output)
    requires ValidTable(table)
    ensures r.Success? <==> code in Codes(table)
    ensures forall i :: 0 <= i < |table| && table[i].code == code ==>
      r == Success(Block(table[i], plain))
    ensures r.Failure? ==> r == Failure("", "No description found for code: " + IntStr(code) + "\n")
  {
    forall i | 0 <= i < |table| && table[i].code == code
      ensures Lookup(table, code) == Some(table[i].entry)
    {
      LookupFindsRow(table, table[i]);
    }
    match Lookup(table, code)
    case None => Failure("", "No description found for code: " + IntStr(code) + "\n")
    case Some(e) => Success(MsgFmt(CodeText(code, plain), e.short, e.long))
  }

  // ----- Printing several codes -----

  /** `for code in codes: _print_code(code, noformat)`; the first code
      missing from the table ends the run, as `_exit` does. */
  function PrintEach(table: seq<Row>, codes: seq<int>, plain: bool): (r: Output)
    requires ValidTable(table)
    ensures r.Success? <==> forall i :: 0 <= i < |codes| ==> codes[i] in Codes(table)
    decreases |codes|
  {
    if codes == [] then Success("")
    else
      AllKeysSplit(codes, Codes(table));
      match PrintCode(table, codes[0], plain)
      case Failure(out, err) => Failure(out, err)
      case Success(block) =>
        match PrintEach(table, codes[1..], plain)
        case Success(rest) => Success(block + rest)
        case Failure(rest, err) => Failure(block + rest, err)
  }

  /** Every code is a key iff the first is and every later one is. */
  lemma AllKeysSplit(codes: seq<int>, keys: seq<int>)
    requires codes != []
    ensures (forall i :: 0 <= i < |codes| ==> codes[i] in keys) <==>
      codes[0] in keys && forall i :: 0 <= i < |codes[1..]| ==> codes[1..][i] in keys
  {
    assert forall i :: 0 < i < |codes| ==> codes[i] == codes[1..][i - 1];
  }

  /** `_print_codes(codes, noformat)`: the codes in ascending order. It
      succeeds iff every code given is a key, whatever their order. */
  function PrintCodes(table: seq<Row>, codes: seq<int>, plain: bool): (r: Output)
    requires ValidTable(table)
    ensures r.Success? <==> forall i :: 0 <= i < |codes| ==> codes[i] in Codes(table)
  {
    AllKeysPermuted(Sort(codes), codes, Codes(table));
    PrintEach(table, Sort(codes), plain)
  }

  /** Reordering a sequence does not change whether all its elements are keys. */
  lemma AllKeysPermuted(a: seq<int>, b: seq<int>, keys: seq<int>)
    requires multiset(a) == multiset(b)
    ensures (forall i :: 0 <= i < |a| ==> a[i] in keys) <==> (forall j :: 0 <= j < |b| ==> b[j] in keys)
  {
    if forall i :: 0 <= i < |a| ==> a[i] in keys {
      forall j | 0 <= j < |b|
        ensures b[j] in keys
      {
        assert b[j] in multiset(a);
      }
    }
    if forall j :: 0 <= j < |b| ==> b[j] in keys {
      forall i | 0 <= i < |a|
        ensures a[i] in keys
      {
        assert a[i] in multiset(b);
      }
    }
  }

  /** Printing the codes of table rows prints exactly those rows' blocks. */
  lemma {:induction false} PrintEachRows(table: seq<Row>, rows: seq<Row>, plain: bool)
    requires ValidTable(table)
    requires forall i :: 0 <= i < |rows| ==> rows[i] in table
    ensures PrintEach(table, Codes(rows), plain) == Success(Render(rows, plain))
    decreases |rows|
  {
    if rows != [] {
      var k :| 0 <= k < |table| && table[k] == rows[0];
      assert PrintCode(table, rows[0].code, plain) == Success(Block(rows[0], plain));
      assert Codes(rows)[1..] == Codes(rows[1..]);
      PrintEachRows(table, rows[1..], plain);
    }
  }

  /** For rows taken from the table in table order, `_print_codes` writes
      their blocks in that order, which is ascending by code. */
  lemma PrintSelectedRows(table: seq<Row>, keep: Row -> bool, plain: bool)
    requires ValidTable(table)
    ensures PrintCodes(table, Codes(FilterRows(table, keep)), plain)
      == Success(Render(FilterRows(table, keep), plain))
  {
    var rows := FilterRows(table, keep);
    FilterRowsAscending(table, keep);
    SortAscending(Codes(rows));
    PrintEachRows(table, rows, plain);
  }

  /** The rows a selection can print: table rows, ascending and distinct by code. */
  lemma SelectionOrdered(table: seq<Row>, keep: Row -> bool)
    requires ValidTable(table)
    ensures forall r :: r in FilterRows(table, keep) <==> r in table && keep(r)
    ensures StrictlyAscending(Codes(FilterRows(table, keep)))
  {
    FilterRowsAscending(table, keep);
  }

  // ----- Pattern mode -----

  /** `code.replace('x', '\d')`: only lower-case `x` is rewritten. */
  function ReplaceX(p: string): (r: string)
    decreases |p|
  {
    if p == [] then []
    else (if p[0] == 'x' then "\\d" else [p[0]]) + ReplaceX(p[1..])
  }

  /** `re.compile(code.replace('x', '\d') + '$')`, when inside the fragment. */
  function PatternRegex(p: string): (r: Option<seq<Atom>>) {
    Compile(ReplaceX(p) + "$")
  }

  /** `_has_code_match(str(c))` for the compiled pattern. */
  function PatternTest(atoms: seq<Atom>): (r: Row -> bool) {
    (row: Row) => Matches(atoms, IntStr(row.code), false)
  }

  /** The table rows `_print_filtered_codes` selects. */
  function PatternRows(table: seq<Row>, p: string): (r: seq<Row>)
    requires PatternRegex(p).Some?
  {
    FilterRows(table, PatternTest(PatternRegex(p).value))
  }

  /** `_print_filtered_codes(code)`. It calls `_print_codes` without
      `noformat`, so its output is always decorated. */
  function PrintFilteredCodes(table: seq<Row>, p: string): (r: Output)
    requires ValidTable(table) && PatternRegex(p).Some?
    ensures var rows := PatternRows(table, p);
      r == if rows == [] then Failure("", "No code found corresponding to: " + p + "\n")
           else Success(Render(rows, false))
  {
    PrintSelectedRows(table, PatternTest(PatternRegex(p).value), false);
    var found := Codes(PatternRows(table, p));
    if found == [] then Failure("", "No code found corresponding to: " + p + "\n")
    else PrintCodes(table, found, false)
  }

  /** A pattern of the advertised kind: `x` for any digit, `.` for any
      character, every other character read literally. */
  predicate IsGlob(p: string) {
    forall i :: 0 <= i < |p| ==> p[i] == '.' || !IsMeta(p[i])
  }

  /** What one character of such a pattern accepts. */
  predicate GlobCharMatches(pc: char, ch: char) {
    if pc == 'x' then IsDigit(ch) else if pc == '.' then ch != '\n' else pc == ch
  }

  /** Equal length and a match at every position. */
  predicate GlobMatches(p: string, s: string) {
    |p| == |s| && forall i :: 0 <= i < |p| ==> GlobCharMatches(p[i], s[i])
  }

  function GlobTest(p: string): (r: Row -> bool) {
    (row: Row) => GlobMatches(p, IntStr(row.code))
  }

  /** The atoms a glob pattern turns into once rewritten. */
  function GlobAtoms(p: string): (r: seq<Atom>)
    ensures |r| == |p|
    ensures forall i :: 0 <= i < |p| ==>
      r[i] == (if p[i] == 'x' then Digit else if p[i] == '.' then AnyChar else Literal(p[i]))
  {
    seq(|p|, i requires 0 <= i < |p| =>
      if p[i] == 'x' then Digit else if p[i] == '.' then AnyChar else Literal(p[i]))
  }

  lemma {:induction false} CompileGlob(p: string)
    requires IsGlob(p)
    ensures PatternRegex(p) == Some(GlobAtoms(p) + [End])
    decreases |p|
  {
    if p == [] {
      var src := ReplaceX(p) + "$";
      assert src == ['$'];
      assert src[1..] == [];
      assert Compile(src) == Prepend(End, Compile([]));
      assert [End] + [] == GlobAtoms(p) + [End];
      assert GlobAtoms(p) + [End] == [End];
    } else {
      var tail := ReplaceX(p[1..]) + "$";
      assert IsGlob(p[1..]) by {
        assert forall i :: 0 <= i < |p| - 1 ==> p[1..][i] == p[i + 1];
      }
      CompileGlob(p[1..]);
      ReplaceXHead(p);
      CompileGlobChar(p[0], tail);
      GlobAtomsHead(p);
    }
  }

  lemma ReplaceXHead(p: string)
    requires p != []
    ensures ReplaceX(p) + "$" == (if p[0] == 'x' then "\\d" else [p[0]]) + (ReplaceX(p[1..]) + "$")
  {
    var head := if p[0] == 'x' then "\\d" else [p[0]];
    assert ReplaceX(p) == head + ReplaceX(p[1..]);
  }

  lemma GlobAtomsHead(p: string)
    requires p != []
    ensures GlobAtoms(p) + [End] == [GlobAtoms(p)[0]] + (GlobAtoms(p[1..]) + [End])
  {
    assert GlobAtoms(p) == [GlobAtoms(p)[0]] + GlobAtoms(p[1..]);
  }

  /** One pattern character, rewritten, compiles to one atom in front of the rest. */
  lemma CompileGlobChar(c: char, tail: string)
    requires c == '.' || !IsMeta(c)
    ensures Compile((if c == 'x' then "\\d" else [c]) + tail)
      == Prepend(if c == 'x' then Digit else if c == '.' then AnyChar else Literal(c), Compile(tail))
  {
    var src := (if c == 'x' then "\\d" else [c]) + tail;
    if c == 'x' {
      assert src[0] == '\\' && src[1] == 'd' && src[2..] == tail;
    } else {
      assert src[0] == c && src[1..] == tail;
    }
  }

  lemma {:induction false} GlobAtomsMatch(p: string, s: string)
    requires NoNewline(s)
    ensures Matches(GlobAtoms(p) + [End], s, false) <==> GlobMatches(p, s)
    decreases |p|
  {
    var atoms := GlobAtoms(p) + [End];
    if p == [] {
      assert atoms == [End];
      if s != [] {
        assert s[0] != '\n';
      }
    } else if s != [] {
      assert atoms[1..] == GlobAtoms(p[1..]) + [End];
      assert NoNewline(s[1..]) by {
        assert forall i :: 0 <= i < |s| - 1 ==> s[1..][i] == s[i + 1];
      }
      GlobAtomsMatch(p[1..], s[1..]);
      if GlobMatches(p[1..], s[1..]) && GlobCharMatches(p[0], s[0]) {
        forall i | 0 <= i < |p|
          ensures GlobCharMatches(p[i], s[i])
        {
          if i > 0 {
            assert p[i] == p[1..][i - 1] && s[i] == s[1..][i - 1];
          }
        }
      }
      if GlobMatches(p, s) {
        assert forall i :: 0 <= i < |p| - 1 ==> p[1..][i] == p[i + 1] && s[1..][i] == s[i + 1];
      }
    }
  }

  /** Pattern mode selects a row iff the glob matches the code's decimal
      text position by position, over its whole length. */
  lemma PatternSelectsGlob(table: seq<Row>, p: string)
    requires ValidTable(table) && IsGlob(p)
    ensures PatternRegex(p).Some?
    ensures PatternRows(table, p) == FilterRows(table, GlobTest(p))
  {
    CompileGlob(p);
    var atoms := GlobAtoms(p) + [End];
    forall i | 0 <= i < |table|
      ensures PatternTest(atoms)(table[i]) == GlobTest(p)(table[i])
    {
      var s := IntStr(table[i].code);
      assert RowWellFormed(table[i]);
      assert AllDigits(s);
      GlobAtomsMatch(p, s);
    }
    FilterRowsAgree(table, PatternTest(atoms), GlobTest(p));
  }

  /** Every key has three digits, so a glob of any other length selects nothing. */
  lemma GlobWrongLength(table: seq<Row>, p: string)
    requires ValidTable(table) && |p| != 3
    ensures FilterRows(table, GlobTest(p)) == []
  {
    forall i | 0 <= i < |table|
      ensures !GlobTest(p)(table[i])
    {
      assert RowWellFormed(table[i]);
      NatStrThreeDigits(table[i].code);
    }
    FilterRowsNone(table, GlobTest(p));
  }

  /** A pattern made only of digits, with no leading zero, accepts exactly the
      code those digits spell. */
  lemma GlobDigitsExact(s: string, c: int)
    requires Canonical(s) && c >= 0
    ensures GlobMatches(s, IntStr(c)) <==> c == Value(s)
  {
    var t := IntStr(c);
    if GlobMatches(s, t) {
      assert forall i :: 0 <= i < |s| ==> s[i] == t[i];
      assert s == t;
      ValueOfNatStr(c);
    }
    if c == Value(s) {
      NatStrOfValue(s);
    }
  }

  /** The pattern spelling the code of a table row selects that row alone. */
  lemma PatternNamesOneRow(table: seq<Row>, s: string, i: int)
    requires ValidTable(table) && Canonical(s)
    requires 0 <= i < |table| && table[i].code == Value(s)
    ensures PatternRegex(s).Some? && PatternRows(table, s) == [table[i]]
  {
    assert IsGlob(s);
    PatternSelectsGlob(table, s);
    forall j | 0 <= j < |table|
      ensures GlobTest(s)(table[j]) == (table[j].code == table[i].code)
    {
      assert RowWellFormed(table[j]);
      GlobDigitsExact(s, table[j].code);
    }
    FilterRowsSingle(table, GlobTest(s), i);
  }

  /** Naming a code of the table as a pattern prints what looking it up
      prints with colours. */
  lemma ExactAgreesWithPattern(table: seq<Row>, s: string)
    requires ValidTable(table)
    requires |s| == 3 && AllDigits(s) && s[0] != '0' && Value(s) in Codes(table)
    ensures IsThreeDigitCode(s) && PatternRegex(s).Some?
    ensures PrintCode(table, CodeValue(s), false) == PrintFilteredCodes(table, s)
  {
    ThreeDigitCodeShape(s);
    assert s[..3] == s;
    var code := Value(s);
    assert CodeValue(s) == code by {
      NatStrOfValueStrips(s);
    }
    var i :| 0 <= i < |table| && table[i].code == code;
    PatternNamesOneRow(table, s, i);
    PrintOneRow(table, i, false);
  }

  /** `_print_codes` of a single key prints what `_print_code` prints for it. */
  lemma PrintOneRow(table: seq<Row>, i: int, plain: bool)
    requires ValidTable(table) && 0 <= i < |table|
    ensures PrintCodes(table, Codes([table[i]]), plain) == PrintCode(table, table[i].code, plain)
  {
    var row := table[i];
    assert Codes([row]) == [row.code];
    SortAscending([row.code]);
    PrintEachRows(table, [row], plain);
    assert Render([row], plain) == Block(row, plain) + "";
  }

  /** The pattern `Nxx` for a digit N. */
  function ClassPattern(digit: nat): (r: string)
    requires digit < 10
  {
    [DigitChar(digit)] + "xx"
  }

  /** `Nxx` accepts a three-digit code iff its hundreds digit is N. */
  lemma ClassGlobTest(digit: nat, c: int)
    requires digit < 10 && 100 <= c <= 999
    ensures GlobMatches(ClassPattern(digit), IntStr(c)) <==> Class(c) == digit
  {
    NatStrHundreds(c);
    var p, t := ClassPattern(digit), IntStr(c);
    if GlobMatches(p, t) {
      assert GlobCharMatches(p[0], t[0]);
      assert DigitValue(p[0]) == DigitValue(t[0]);
    }
    if Class(c) == digit {
      assert GlobCharMatches(p[1], t[1]) && GlobCharMatches(p[2], t[2]);
    }
  }

  /** `hc 1xx` and its siblings: the pattern `Nxx` selects the rows of
      status class N (`ClassRows` says which rows of `STATUS_CODES` those are). */
  lemma ClassPatternRows(table: seq<Row>, digit: nat)
    requires ValidTable(table) && digit < 10
    ensures PatternRegex(ClassPattern(digit)).Some?
    ensures PatternRows(table, ClassPattern(digit)) == FilterRows(table, InClass(digit))
  {
    var p := ClassPattern(digit);
    assert IsGlob(p);
    PatternSelectsGlob(table, p);
    forall j | 0 <= j < |table|
      ensures GlobTest(p)(table[j]) == InClass(digit)(table[j])
    {
      assert RowWellFormed(table[j]);
      ClassGlobTest(digit, table[j].code);
    }
    FilterRowsAgree(table, GlobTest(p), InClass(digit));
  }

  // ----- Search mode -----

  predicate IsAscii(s: string) {
    forall i :: 0 <= i < |s| ==> s[i] < 128 as char
  }

  /** `_is_text_found(short + long)`: the fields joined with no separator. */
  function SearchTest(atoms: seq<Atom>): (r: Row -> bool) {
    (row: Row) => Search(atoms, row.entry.short + row.entry.long, true)
  }

  /** The table rows `_print_search` selects. */
  function SearchRows(table: seq<Row>, text: string): (r: seq<Row>)
    requires Compile(text).Some?
  {
    FilterRows(table, SearchTest(Compile(text).value))
  }

  /** `_print_search(text, noformat)`. */
  function PrintSearch(table: seq<Row>, text: string, plain: bool): (r: Output)
    requires ValidTable(table) && Compile(text).Some?
    ensures var rows := SearchRows(table, text);
      r == if rows == [] then Failure("", "No status code found for search: " + text + "\n")
           else Success(Render(rows, plain))
  {
    PrintSelectedRows(table, SearchTest(Compile(text).value), plain);
    var found := Codes(SearchRows(table, text));
    if found != [] then PrintCodes(table, found, plain)
    else Failure("", "No status code found for search: " + text + "\n")
  }

  /** `needle` occurs in `hay` at position `k` when ASCII case is ignored. */
  predicate OccursAt(hay: string, needle: string, k: int) {
    0 <= k <= |hay| - |needle| && LowerStr(hay[k..k + |needle|]) == LowerStr(needle)
  }

  predicate ContainsIgnoringCase(hay: string, needle: string) {
    exists k :: 0 <= k <= |hay| && OccursAt(hay, needle, k)
  }

  function LiteralTest(text: string): (r: Row -> bool) {
    (row: Row) => ContainsIgnoringCase(row.entry.short + row.entry.long, text)
  }

  lemma LiteralSearchAt(text: string, hay: string, k: int)
    requires 0 <= k <= |hay|
    ensures Matches(Literals(text), hay[k..], true) <==> OccursAt(hay, text, k)
  {
    LiteralsMatch(text, hay[k..], true);
    if k <= |hay| - |text| {
      if forall i :: 0 <= i < |text| ==> SameChar(text[i], hay[k..][i], true) {
        assert LowerStr(hay[k..k + |text|]) == LowerStr(text);
      }
      if LowerStr(hay[k..k + |text|]) == LowerStr(text) {
        forall i | 0 <= i < |text|
          ensures SameChar(text[i], hay[k..][i], true)
        {
          assert LowerStr(hay[k..k + |text|])[i] == LowerStr(text)[i];
        }
      }
    }
  }

  /** Literal search on one row is a case-insensitive substring test. */
  lemma LiteralTestAgrees(text: string, r: Row)
    ensures SearchTest(Literals(text))(r) == LiteralTest(text)(r)
  {
    var hay := r.entry.short + r.entry.long;
    SearchAtSomePosition(Literals(text), hay, true);
    forall k | 0 <= k <= |hay|
      ensures Matches(Literals(text), hay[k..], true) <==> OccursAt(hay, text, k)
    {
      LiteralSearchAt(text, hay, k);
    }
  }

  /** A search text without special characters selects a row iff it occurs
      in the reason phrase followed directly by the explanation, ignoring
      ASCII case; an occurrence may straddle the two. */
  lemma SearchSelectsLiteral(table: seq<Row>, text: string)
    requires forall i :: 0 <= i < |text| ==> !IsMeta(text[i])
    ensures Compile(text) == Some(Literals(text))
    ensures SearchRows(table, text) == FilterRows(table, LiteralTest(text))
  {
    CompileLiteralText(text);
    forall i | 0 <= i < |table|
      ensures SearchTest(Literals(text))(table[i]) == LiteralTest(text)(table[i])
    {
      LiteralTestAgrees(text, table[i]);
    }
    FilterRowsAgree(table, SearchTest(Literals(text)), LiteralTest(text));
  }
}
