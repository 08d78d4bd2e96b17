# hc — HTTP status code lookup, modelled in Dafny

`hc` explains HTTP status codes. Its whole logic sits in
`src/httpcode/__init__.py`:
- a constant dictionary `STATUS_CODES` maps each code to a reason phrase and an explanation;
- `main` picks one of four modes from the command line:
  - `--search TEXT` searches the phrases and explanations with a case-insensitive regular expression;
  - a positional code of three digits (`_IS_THREE_DIGIT_CODE`) looks that code up;
  - any other non-empty positional code is a pattern, in which `x` stands for a digit;
  - no code at all lists the whole table.

Every hit is printed through `MSG_FMT`, with the code made bright by
colorama. In search, exact and list mode `--plain` prints the bare code
instead; pattern mode ignores `--plain` and always decorates. A miss
writes one line to stderr and exits with status -1.

The model is a set of pure functions. Writes to stdout and stderr and the
call to `sys.exit` become the value returned:
- `HttpCode.Output` is `Success(stdout)` or `Failure(stdout, stderr)`;
- `Cli.Run` is `main` after argument parsing.

Modules, in dependency order:

| file | module | what it holds |
|---|---|---|
| `wrappers.dfy` | `Wrappers` | `Option` |
| `decimal.dfy` | `Decimal` | `str(n)` and `int(s)` on decimal digits, and how they relate |
| `regex.dfy` | `Regex` | the fragment of Python's `re` this model covers: literal characters, `\d`, `.` and `$`, with `re.match` and `re.search` semantics and an ASCII `IGNORECASE` |
| `sorting.dfy` | `Sorting` | `sorted` on integers, and the uniqueness of ascending permutations |
| `table.dfy` | `StatusTable` | the table literal row by row; dictionary lookup; list comprehensions over the table; the facts about the table that the modes rely on |
| `format.dfy` | `Format` | `_colorize`, `MSG_FMT`, the block of one row, and a reader that recovers the fields of printed output |
| `httpcode.dfy` | `HttpCode` | `_print_code`, `_print_codes`, `_print_filtered_codes`, `_print_search` |
| `cli.dfy` | `Cli` | the dispatch in `main`, one lemma per mode, and worked examples |

Every `HttpCode` operation takes the table it consults as a parameter. Its
precondition `ValidTable(table)` says what `STATUS_CODES` provides:
- well-formed rows: every key in 100..599, every reason phrase and explanation non-empty;
- keys strictly ascending in iteration order, as the literal writes them.

`StatusTable.TableWellFormed` proves that `STATUS_CODES` is such a table.
`Cli.Run` passes `STATUS_CODES`.

Edge cases, as the code decides them:
- **Four-digit input.** `_IS_THREE_DIGIT_CODE` is `re.compile(r'\d{3}$').match` (src/httpcode/__init__.py:148). `match` anchors at the start and `$` at the end, so `1404` is not a three-digit code. `main` therefore hands it to `_print_filtered_codes` (src/httpcode/__init__.py:243-244), and the run fails with `No code found corresponding to: 1404` (`Cli.FourDigitExample`).
- **Wildcard case.** `code.replace('x', '\d')` (src/httpcode/__init__.py:171) rewrites only a lower-case `x`. `X` stays a literal character, which no code's text contains.
- **Trailing newline.** `$` also matches just before a final newline, so `_IS_THREE_DIGIT_CODE` (src/httpcode/__init__.py:148) accepts `"404\n"`, and `int` (src/httpcode/__init__.py:242) ignores that newline (`HttpCode.ThreeDigitCodeShape`, `HttpCode.CodeValue`).
- **`--plain` in pattern mode.** `_print_filtered_codes` calls `_print_codes` without `noformat` (src/httpcode/__init__.py:175), so pattern mode always prints decorated codes (`Cli.PatternMode`).

## Model

| member | source | states |
|---|---|---|
| Decimal.NatStr | src/httpcode/__init__.py:200 | `str(n)` of a non-negative integer is a digit string with no leading zero, and is `"0"` exactly for zero |
| Decimal.IntStr | src/httpcode/__init__.py:197-200 | `str(n)` of any integer: a digit string without leading zeros, preceded by a minus sign exactly when `n` is negative; `Decimal.ValueOfNatStr` states that the digits spell the magnitude |
| Decimal.Value | src/httpcode/__init__.py:242 | `int(s)` on decimal digits; what it promises is stated by `Decimal.ValueOfNatStr`, `Decimal.NatStrOfValue` and `Decimal.NatStrOfValueStrips`, which make it the inverse of `str` |
| Decimal.ValueOfNatStr | src/httpcode/__init__.py:242 | `int(str(n)) == n` |
| Decimal.NatStrOfValue | src/httpcode/__init__.py:242 | `str(int(s)) == s` for a digit string without leading zeros |
| Decimal.NatStrOfValueStrips | src/httpcode/__init__.py:242 | `str(int(s))` is `s` with its leading zeros dropped, which is the text the exact-mode failure echoes |
| Decimal.NatStrThreeDigits | src/httpcode/__init__.py:172 | the decimal text of `n` has three digits exactly when `n` is in 100..999 |
| Decimal.NatStrHundreds | src/httpcode/__init__.py:172 | the three characters of `str(n)` for `n` in 100..999 are its hundreds, tens and units digits |
| Regex.Compile | src/httpcode/__init__.py:171 | `re.compile` on the fragment of expression syntax modelled, `None` outside it; `Regex.CompileLiteralText` and `HttpCode.CompileGlob` state what it yields for search texts and rewritten patterns |
| Regex.Matches | src/httpcode/__init__.py:148 | the `match` of a compiled expression, anchored at the start; `HttpCode.ThreeDigitCodeShape` and `Regex.LiteralsMatch` state what it accepts |
| Regex.Search | src/httpcode/__init__.py:179 | the `search` of a compiled expression; `Regex.SearchAtSomePosition` states that it is `match` at some start position |
| Regex.CompileLiteralText | src/httpcode/__init__.py:179 | a search text with no special characters compiles to its characters read literally |
| Regex.SearchAtSomePosition | src/httpcode/__init__.py:179 | `re.search` finds a match exactly when the pattern matches at some start position |
| Regex.LiteralsMatch | src/httpcode/__init__.py:179 | a literal pattern matches at the start of a text exactly when the text begins with it, up to ASCII case when `IGNORECASE` is set |
| Sorting.Sort | src/httpcode/__init__.py:190 | `sorted(codes)` is ascending and holds the same codes, each as often |
| Sorting.AscendingPermutationUnique | src/httpcode/__init__.py:190 | two ascending lists with the same elements are equal, so `sorted` has only one possible result |
| Sorting.SortAscending | src/httpcode/__init__.py:190 | sorting a list that is already ascending returns it unchanged |
| StatusTable.TableWellFormed | src/httpcode/__init__.py:39-139 | every key lies in 100..599; every reason phrase and explanation is non-empty; the keys strictly ascend in dictionary order |
| StatusTable.ClassRows | src/httpcode/__init__.py:39-139 | the rows of class N are the literal's 1xx, 2xx, 3xx, 4xx or 5xx block; every other digit has no rows |
| StatusTable.ClassSelection | src/httpcode/__init__.py:39-139 | class N has some row exactly when N is 1 to 5 |
| StatusTable.BelowTable | src/httpcode/__init__.py:39-139 | no code below 100 is a key |
| StatusTable.Lookup | src/httpcode/__init__.py:195 | `STATUS_CODES[code]` finds an entry exactly when `code` is a key, and the entry found sits in the table under that code; a missing key is `None`, where Python raises `KeyError` |
| StatusTable.LookupFindsRow | src/httpcode/__init__.py:195 | with distinct keys, looking up a row's code returns that row's entry |
| StatusTable.FilterRows | src/httpcode/__init__.py:172 | a comprehension over the dictionary keeps exactly the rows the test accepts |
| StatusTable.FilterRowsAscending | src/httpcode/__init__.py:180-183 | a comprehension over rows with ascending keys yields ascending keys |
| StatusTable.FilterRowsSingle | src/httpcode/__init__.py:172 | with distinct keys, a test that accepts exactly one code keeps that row alone |
| StatusTable.FilterRowsAll | src/httpcode/__init__.py:180-183 | a test that accepts every row keeps the whole table |
| StatusTable.FilterRowsNone | src/httpcode/__init__.py:172 | a test that accepts no row keeps nothing |
| StatusTable.FilterRowsConcat | src/httpcode/__init__.py:172 | filtering the concatenation of two row lists filters each list |
| Format.MsgFmt | src/httpcode/__init__.py:141-146 | the three labelled lines and blank line of `MSG_FMT`; `Format.ParseMsgFmt` states that the values read back out of it |
| Format.Colorize | src/httpcode/__init__.py:151-152 | `BRIGHT + text + RESET_ALL`; `Format.PlainAndDecoratedDiffer` states how decorated output differs from plain |
| Format.CodeText | src/httpcode/__init__.py:200 | the code as `_print_code` writes it; `Format.CodeTextSingleLine` and `Format.PlainCodeReadsBack` state that it is one line and that the plain text reads back as the code |
| Format.Block | src/httpcode/__init__.py:199-201 | the block `_print_code` writes for one row; `Format.ParseRender` states that its fields read back |
| Format.Render | src/httpcode/__init__.py:190-191 | what the loop writes: the blocks of the rows one after another, in order; `Format.ParseRender` reads it back row by row and `HttpCode.PrintEachRows` states that printing the rows' codes writes exactly it |
| Format.ParseMsgFmt | src/httpcode/__init__.py:141-146 | `MSG_FMT` filled with one-line values reads back as those three values, and leaves the text after it untouched |
| Format.ParseRender | src/httpcode/__init__.py:189-191 | printing rows one after another reads back as each row's code text, reason phrase and explanation, once each and in order |
| Format.PlainAndDecoratedDiffer | src/httpcode/__init__.py:199-201 | plain and decorated output carry the same phrases and explanations; the decorated code is `BRIGHT + str(code) + RESET_ALL` and the plain one is `str(code)` |
| Format.PlainCodeReadsBack | src/httpcode/__init__.py:200 | the plain code field reads back, through `int`, as the row's code |
| Format.CodeTextSingleLine | src/httpcode/__init__.py:200 | the printed code, bright or plain, contains no newline |
| HttpCode.IsThreeDigitCode | src/httpcode/__init__.py:148 | `_IS_THREE_DIGIT_CODE`; `HttpCode.ThreeDigitCodeShape` and `Cli.ThreeDigitCodeAscii` state which strings it accepts |
| HttpCode.ThreeDigitCodeShape | src/httpcode/__init__.py:148 | `_IS_THREE_DIGIT_CODE` accepts exactly three digits, optionally followed by one newline |
| HttpCode.CodeValue | src/httpcode/__init__.py:242 | `int(code)` of an accepted code is at most 999, and its decimal text is the three digits without leading zeros |
| HttpCode.PrintCode | src/httpcode/__init__.py:193-202 | succeeds exactly when the code is a key; the block written is that row's `MSG_FMT` block; a miss writes only `No description found for code: <code>` to stderr |
| HttpCode.PrintEach | src/httpcode/__init__.py:190-191 | printing a list of codes succeeds exactly when every code is a key |
| HttpCode.PrintEachRows | src/httpcode/__init__.py:190-191 | printing the codes of table rows writes exactly those rows' blocks, in that order |
| HttpCode.PrintCodes | src/httpcode/__init__.py:189-191 | `_print_codes` succeeds exactly when every code given is a key, whatever order the codes come in |
| HttpCode.PrintSelectedRows | src/httpcode/__init__.py:189-191 | `_print_codes` applied to a comprehension over the table writes the selected rows' blocks in table order, which is ascending |
| HttpCode.SelectionOrdered | src/httpcode/__init__.py:180-183 | a selection holds exactly the table rows the test accepts, with strictly ascending, hence distinct, codes |
| HttpCode.ReplaceX | src/httpcode/__init__.py:171 | `code.replace('x', '\d')`; `HttpCode.CompileGlob` states that each lower-case `x` becomes one digit atom |
| HttpCode.PatternRegex | src/httpcode/__init__.py:171 | the expression `_print_filtered_codes` compiles; `HttpCode.CompileGlob` states the atoms it yields for a pattern of digits, `x` and `.` |
| HttpCode.PatternTest | src/httpcode/__init__.py:171-172 | `_has_code_match(str(c))`: the compiled pattern matched, anchored at the start, against the code's decimal text; `HttpCode.GlobAtomsMatch` states what it accepts for a pattern of digits, `x` and `.` |
| HttpCode.PatternRows | src/httpcode/__init__.py:172 | the rows the comprehension keeps; `HttpCode.PatternSelectsGlob`, `HttpCode.ClassPatternRows` and `HttpCode.PatternNamesOneRow` state which rows, and `HttpCode.SelectionOrdered` that they come in ascending code order |
| HttpCode.PrintFilteredCodes | src/httpcode/__init__.py:160-175 | no selected row fails with `No code found corresponding to: <pattern>` and writes nothing to stdout; otherwise the selected rows' blocks, decorated, in table order |
| HttpCode.CompileGlob | src/httpcode/__init__.py:171 | a pattern of digits, `x` and `.` rewrites and compiles to one atom per character followed by `$` |
| HttpCode.GlobAtomsMatch | src/httpcode/__init__.py:171-172 | on a code's decimal text, the compiled pattern matches exactly when the pattern matches position by position over the whole length |
| HttpCode.PatternSelectsGlob | src/httpcode/__init__.py:171-172 | pattern mode selects exactly the rows whose code the pattern matches position by position over the whole length |
| HttpCode.GlobWrongLength | src/httpcode/__init__.py:171-172 | every key has three digits, so a pattern of any other length selects nothing |
| HttpCode.GlobDigitsExact | src/httpcode/__init__.py:171 | a pattern of digits without leading zero accepts exactly the code it spells |
| HttpCode.PatternNamesOneRow | src/httpcode/__init__.py:171-172 | the pattern spelling a key selects that row alone |
| HttpCode.ExactAgreesWithPattern | src/httpcode/__init__.py:171-175 | for a key written as three digits, pattern mode prints what exact mode prints with colours |
| HttpCode.PrintOneRow | src/httpcode/__init__.py:189-191 | `_print_codes` of a single key prints what `_print_code` prints for it |
| HttpCode.ClassGlobTest | src/httpcode/__init__.py:169-171 | `Nxx` accepts a three-digit code exactly when its hundreds digit is N |
| HttpCode.ClassPatternRows | src/httpcode/__init__.py:169-172 | the pattern `Nxx` selects exactly the rows of status class N |
| HttpCode.SearchTest | src/httpcode/__init__.py:182 | `_is_text_found(short + long)`: the compiled search text found, ignoring ASCII case, anywhere in the two fields joined with no separator; `HttpCode.LiteralTestAgrees` states it is a substring test for a literal text |
| HttpCode.SearchRows | src/httpcode/__init__.py:180-183 | the rows the comprehension keeps; `HttpCode.SearchSelectsLiteral` states which rows a literal text selects, and `HttpCode.SelectionOrdered` that they come in ascending code order |
| HttpCode.PrintSearch | src/httpcode/__init__.py:177-187 | no selected row fails with `No status code found for search: <text>` and writes nothing to stdout; otherwise the selected rows' blocks in table order, plain when `--plain` is given |
| HttpCode.LiteralSearchAt | src/httpcode/__init__.py:179 | a literal pattern matches at position k exactly when the text occurs there, ignoring ASCII case |
| HttpCode.LiteralTestAgrees | src/httpcode/__init__.py:179-182 | literal search on one row is a case-insensitive substring test on `short + long` |
| HttpCode.SearchSelectsLiteral | src/httpcode/__init__.py:179-183 | a search text without special characters selects a row exactly when it occurs, ignoring ASCII case, in the reason phrase followed directly by the explanation; an occurrence may straddle the two |
| Cli.Supported | src/httpcode/__init__.py:237-246 | the command lines whose run this model describes: an ASCII search text inside the expression fragment, or an ASCII code that is three digits or a pattern inside the fragment once `x` is rewritten, or no code; the `Cli.Run` line under "Left out" lists what it excludes |
| Cli.Run | src/httpcode/__init__.py:237-246 | every failure leaves stdout empty, so no partial result is printed; with neither a search text nor a non-empty code the run always succeeds. `Cli.SearchMode`, `Cli.ExactMode`, `Cli.PatternMode` and `Cli.ListAll` state each mode's output |
| Cli.SearchMode | src/httpcode/__init__.py:237-238 | a search text decides the output whatever the code says: the selected rows' blocks in table order, or `No status code found for search: <text>` when none is selected |
| Cli.ExactMode | src/httpcode/__init__.py:239-242 | three digits look the code up. The lookup succeeds exactly when the value is a key, and writes that row's block. A miss echoes the digits without leading zeros. A leading zero always misses |
| Cli.ThreeDigitCodeAscii | src/httpcode/__init__.py:148 | every string the model's ASCII-only classifier accepts is ASCII, so exact mode as modelled sees only ASCII digits |
| Cli.LeadingZeroBelow100 | src/httpcode/__init__.py:242 | three digits starting with `0` have a value below 100 |
| Cli.PatternMode | src/httpcode/__init__.py:243-244 | any other non-empty code prints the selected rows decorated, whatever `--plain` says, or fails with `No code found corresponding to: <pattern>` |
| Cli.GlobPatternMode | src/httpcode/__init__.py:171-175 | for a pattern of digits, `x` and `.`, the output is the blocks of the rows it matches position by position; a pattern whose length is not three fails |
| Cli.ClassPatternMode | src/httpcode/__init__.py:168-175 | `hc Nxx` prints class N's rows in order, decorated, for N from 1 to 5, and fails for every other digit |
| Cli.InformationalExample | src/httpcode/__init__.py:169 | `hc 1xx` prints the blocks of 100, 101 and 102, decorated, with or without `--plain` |
| Cli.NotFoundExample | src/httpcode/__init__.py:80 | `hc 404 --plain` prints the Not Found block with the bare code |
| Cli.LeadingZeroExample | src/httpcode/__init__.py:197 | `hc 099` fails with `No description found for code: 99` |
| Cli.LongCodeFails | src/httpcode/__init__.py:241-244 | a code of more than three digits is not a three-digit code but a pattern; no key has that many digits, so the run fails with `No code found corresponding to: <code>` |
| Cli.FourDigitExample | src/httpcode/__init__.py:148 | `hc 1404` is a pattern, not a code, and fails with `No code found corresponding to: 1404` |
| Cli.ListAll | src/httpcode/__init__.py:245-246 | no code, or an empty one, prints every row of the table in order |
| Cli.EmptySearchListsAll | src/httpcode/__init__.py:237-238 | an empty search text selects every row, so it prints what listing all prints |
| Cli.SuccessListsRowsInOrder | src/httpcode/__init__.py:189-191 | every successful run prints the blocks of table rows whose codes strictly ascend, each code at most once |
| Cli.SelectionIsOrderedRun | src/httpcode/__init__.py:189-191 | the blocks of any selection from the table form such a run |

## Left out

- Argument parsing (`argparse`, usage text; `src/httpcode/__init__.py:205-232`): `Cli.Args` stands for the parsed namespace.
- colorama's `init` and `deinit`, and its stripping of escape sequences when stdout is not a terminal. These are terminal I/O. `Style.BRIGHT` and `Style.RESET_ALL` are given their ANSI values `ESC[1m` and `ESC[0m`.
- `sys.stdout.write`, `sys.stderr.write` and `sys.exit(-1)`. These are I/O and process control. They appear as the returned `Output`; the exit status is implied by `Success` or `Failure`.
- Cli.Run: requires `Supported`. A search text must lie in the regular-expression fragment above and be ASCII; the ASCII case folding is then Python's because every string of `STATUS_CODES` is ASCII as well (a table holding the Kelvin sign U+212A would be searched differently, since Python folds it to `k`). A positional code must be ASCII, and a pattern must lie in that fragment once `x` is rewritten. A code of three non-ASCII decimal digits, such as `٤٠٤`, is a three-digit code to Python's `\d`, and `int` reads it as 404; the model does not describe that run. Character classes such as `30[12]`, repetition such as `3.*`, alternation and groups are not modelled. Neither are the `re.error` that a malformed expression raises, Unicode case folding, or non-ASCII digits matching `\d`. All of these belong to Python's regular-expression engine, not to `hc`.
- Cli.ThreeDigitCodeAscii: holds of the model's classifier, which knows only ASCII digits. Python 3's `\d` in `_IS_THREE_DIGIT_CODE` also accepts other Unicode decimal digits, so `٤٠٤` is a three-digit code there and is not ASCII.
- HttpCode.ThreeDigitCodeShape: ASCII digits only. Python's `\d` and `int` also accept other Unicode decimal digits, which the model does not represent.
- Format.ParseRender: its precondition, that every row's phrase and explanation hold no newline (`SingleLine`), is not proved for `STATUS_CODES`. Checking every character of the 152 literal strings (76 rows) is beyond what one proof can afford here. The reading-back lemma therefore applies to the table only under that assumption.
- Format.PlainAndDecoratedDiffer: requires `SingleLine` too, which is not proved for `STATUS_CODES`, for the same reason as `Format.ParseRender`.
- Concrete searches over the literal table, such as `teapot` or `WEBDAV`, are not proved, for the same reason: each needs character-level facts about every row's strings. `HttpCode.SearchSelectsLiteral` states what every literal search selects.
- `setup.py`: packaging and entry-point registration, with no logic.
