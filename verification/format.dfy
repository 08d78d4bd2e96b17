/** The text `_print_code` writes for one table entry, and a reader for that
    text which recovers the three fields, so that what the output says can
    be stated without looking at how it is assembled. */
module Format {
  import opened Wrappers
  import opened Decimal
  import opened StatusTable

  /** colorama's `Style.BRIGHT` and `Style.RESET_ALL` escape sequences. */
  const Bright: string := "\U{1B}[1m"
  const ResetAll: string := "\U{1B}[0m"

  const CodeLabel: string := "Status code "
  const MessageLabel: string := "Message: "
  const ExplainLabel: string := "Code explanation: "

  /** `_colorize`: the text wrapped in the bright and reset sequences. */
  function Colorize(text: string): (r: string) {
    Bright + text + ResetAll
  }

  /** `MSG_FMT.format(code=code, message=message, explain=explain)`: three
      labelled lines and a blank line. */
  function MsgFmt(code: string, message: string, explain: string): (r: string) {
    CodeLabel + code + "\n" + MessageLabel + message + "\n" + ExplainLabel + explain + "\n\n"
  }

  /** The code as `_print_code` writes it: bare when `plain`, colorized otherwise. */
  function CodeText(code: int, plain: bool): (r: string) {
    if plain then IntStr(code) else Colorize(IntStr(code))
  }

  /** What `_print_code` writes for a row of the table. */
  function Block(row: Row, plain: bool): (r: string) {
    MsgFmt(CodeText(row.code, plain), row.entry.short, row.entry.long)
  }

  /** The blocks of `rows`, one after the other. */
  function Render(rows: seq<Row>, plain: bool): (r: string)
    decreases |rows|
  {
    if rows == [] then "" else Block(rows[0], plain) + Render(rows[1..], plain)
  }

  // ----- Reading the output back -----

  /** The three values a block carries. */
  datatype Fields = Fields(code: string, message: string, explain: string)

  predicate NoNewline(s: string) {
    forall i :: 0 <= i < |s| ==> s[i] != '\n'
  }

  /** The text before the first newline and the text after it. */
  function SplitLine(s: string): (r: Option<(string, string)>)
    ensures r.Some? ==> s == r.value.0 + "\n" + r.value.1 && NoNewline(r.value.0)
    ensures r.None? <==> NoNewline(s)
    decreases |s|
  {
    if s == [] then None
    else if s[0] == '\n' then Some(([], s[1..]))
    else match SplitLine(s[1..])
      case None => None
      case Some((line, rest)) => Some(([s[0]] + line, rest))
  }

  /** `s` without `prefix`, when it starts with it. */
  function DropPrefix(prefix: string, s: string): (r: Option<string>)
    ensures r.Some? <==> prefix <= s
    ensures r.Some? ==> s == prefix + r.value
  {
    if prefix <= s then Some(s[|prefix|..]) else None
  }

  /** One labelled line: the value after `tag`, and the text after the line. */
  function ParseLine(tag: string, s: string): (r: Option<(string, string)>)
    ensures r.Some? ==> |r.value.1| < |s|
  {
    match SplitLine(s)
    case None => None
    case Some((line, rest)) =>
      match DropPrefix(tag, line)
      case None => None
      case Some(value) => Some((value, rest))
  }

  /** One block at the start of `s`, and the text after it. */
  function ParseBlock(s: string): (r: Option<(Fields, string)>)
    ensures r.Some? ==> |r.value.1| < |s|
  {
    match ParseLine(CodeLabel, s)
    case None => None
    case Some((code, s1)) =>
      match ParseLine(MessageLabel, s1)
      case None => None
      case Some((message, s2)) =>
        match ParseLine(ExplainLabel, s2)
        case None => None
        case Some((explain, s3)) =>
          if s3 != [] && s3[0] == '\n' then Some((Fields(code, message, explain), s3[1..])) else None
  }

  /** The blocks of a whole output, or `None` if it is not a run of blocks. */
  function ParseOutput(s: string): (r: Option<seq<Fields>>)
    decreases |s|
  {
    if s == [] then Some([])
    else match ParseBlock(s)
      case None => None
      case Some((f, rest)) =>
        match ParseOutput(rest)
        case None => None
        case Some(fs) => Some([f] + fs)
  }

  /** The fields a row's block should carry. */
  function RowFields(row: Row, plain: bool): (r: Fields) {
    Fields(CodeText(row.code, plain), row.entry.short, row.entry.long)
  }

  function AllRowFields(rows: seq<Row>, plain: bool): (r: seq<Fields>)
    ensures |r| == |rows| && forall i :: 0 <= i < |rows| ==> r[i] == RowFields(rows[i], plain)
  {
    seq(|rows|, i requires 0 <= i < |rows| => RowFields(rows[i], plain))
  }

  /** A row whose texts fit on one line each, as every row of the table does. */
  predicate SingleLine(r: Row) {
    NoNewline(r.entry.short) && NoNewline(r.entry.long)
  }

  lemma {:induction false} SplitLineOf(line: string, rest: string)
    requires NoNewline(line)
    ensures SplitLine(line + "\n" + rest) == Some((line, rest))
    decreases |line|
  {
    if line != [] {
      assert (line + "\n" + rest)[1..] == line[1..] + "\n" + rest;
      SplitLineOf(line[1..], rest);
      assert [line[0]] + line[1..] == line;
    }
  }

  lemma ParseLineOf(tag: string, value: string, rest: string)
    requires NoNewline(tag + value)
    ensures ParseLine(tag, tag + value + "\n" + rest) == Some((value, rest))
  {
    SplitLineOf(tag + value, rest);
    assert (tag + value)[|tag|..] == value;
  }

  lemma CodeTextSingleLine(code: int, plain: bool)
    ensures NoNewline(CodeText(code, plain))
  {
    var digits := IntStr(code);
    if code < 0 {
      assert forall i :: 1 <= i < |digits| ==> digits[i] == digits[1..][i - 1];
    }
  }

  /** The reader recovers the three values of a block written by `MsgFmt`,
      and leaves whatever follows it. */
  lemma {:induction false} ParseMsgFmt(code: string, message: string, explain: string, rest: string)
    requires NoNewline(code) && NoNewline(message) && NoNewline(explain)
    ensures ParseBlock(MsgFmt(code, message, explain) + rest) == Some((Fields(code, message, explain), rest))
  {
    var s3 := "\n" + rest;
    var s2 := ExplainLabel + explain + "\n" + s3;
    var s1 := MessageLabel + message + "\n" + s2;
    var s := CodeLabel + code + "\n" + s1;
    assert MsgFmt(code, message, explain) + rest == s;
    assert NoNewline(CodeLabel + code);
    assert NoNewline(MessageLabel + message);
    assert NoNewline(ExplainLabel + explain);
    ParseLineOf(CodeLabel, code, s1);
    ParseLineOf(MessageLabel, message, s2);
    ParseLineOf(ExplainLabel, explain, s3);
  }

  /** Reading back a rendered list of rows gives each row's code text,
      reason phrase and explanation, once each and in the order given. */
  lemma {:induction false} ParseRender(rows: seq<Row>, plain: bool)
    requires forall i :: 0 <= i < |rows| ==> SingleLine(rows[i])
    ensures ParseOutput(Render(rows, plain)) == Some(AllRowFields(rows, plain))
    decreases |rows|
  {
    if rows != [] {
      ParseRender(rows[1..], plain);
      ParseFirstBlock(rows[0], plain, Render(rows[1..], plain));
      ParseOutputStep(Render(rows, plain), RowFields(rows[0], plain), Render(rows[1..], plain),
        AllRowFields(rows[1..], plain));
      assert AllRowFields(rows, plain) == [RowFields(rows[0], plain)] + AllRowFields(rows[1..], plain);
    }
  }

  /** The block of a single-line row reads back as that row's fields. */
  lemma ParseFirstBlock(r: Row, plain: bool, tail: string)
    requires SingleLine(r)
    ensures ParseBlock(Block(r, plain) + tail) == Some((RowFields(r, plain), tail))
  {
    CodeTextSingleLine(r.code, plain);
    ParseMsgFmt(CodeText(r.code, plain), r.entry.short, r.entry.long, tail);
  }

  /** A block followed by a run of blocks is a run of blocks. */
  lemma ParseOutputStep(s: string, f: Fields, rest: string, fs: seq<Fields>)
    requires ParseBlock(s) == Some((f, rest)) && ParseOutput(rest) == Some(fs)
    ensures ParseOutput(s) == Some([f] + fs)
  {
  }

  /** Plain and decorated output carry the same reason phrases and
      explanations; they differ only in the code, which decorated output
      wraps as `Bright + str(code) + ResetAll`. */
  lemma PlainAndDecoratedDiffer(rows: seq<Row>)
    requires forall i :: 0 <= i < |rows| ==> SingleLine(rows[i])
    ensures ParseOutput(Render(rows, true)).Some? && ParseOutput(Render(rows, false)).Some?
    ensures var plain, decorated := ParseOutput(Render(rows, true)).value, ParseOutput(Render(rows, false)).value;
      && |plain| == |decorated| == |rows|
      && forall i :: 0 <= i < |rows| ==>
        && plain[i].message == decorated[i].message == rows[i].entry.short
        && plain[i].explain == decorated[i].explain == rows[i].entry.long
        && plain[i].code == IntStr(rows[i].code)
        && decorated[i].code == Bright + plain[i].code + ResetAll
  {
    ParseRender(rows, true);
    ParseRender(rows, false);
  }

  /** The plain code field reads back as the row's code. */
  lemma PlainCodeReadsBack(r: Row)
    requires r.code >= 0
    ensures AllDigits(CodeText(r.code, true)) && Value(CodeText(r.code, true)) == r.code
  {
    ValueOfNatStr(r.code);
  }
}
