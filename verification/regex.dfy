/** The fragment of Python's `re` this model covers: literal
    characters, `\d`, `.` and `$`, with `re.match` (anchored at the start)
    and `re.search` (any start) semantics and an optional IGNORECASE flag
    restricted to ASCII letters. Every regular expression in this fragment
    matches a fixed number of characters, so matching needs no backtracking. */
module Regex {
  import opened Wrappers
  import opened Decimal

  datatype Atom =
    | Literal(ch: char)  // the character itself
    | Digit              // `\d`
    | AnyChar            // `.`: any character but a newline
    | End                // `$`: end of text, or just before a final newline

  /** Characters with a special meaning in a Python regular expression. */
  predicate IsMeta(ch: char) {
    ch in "\\.^$*+?{}[]|()"
  }

  /** Parses a regular expression source; `None` when it leaves the fragment. */
  function Compile(src: string): (r: Option<seq<Atom>>)
    decreases |src|
  {
    if src == [] then Some([])
    else if src[0] == '\\' then
      if |src| >= 2 && src[1] == 'd' then Prepend(Digit, Compile(src[2..])) else None
    else if src[0] == '.' then Prepend(AnyChar, Compile(src[1..]))
    else if src[0] == '$' then Prepend(End, Compile(src[1..]))
    else if IsMeta(src[0]) then None
    else Prepend(Literal(src[0]), Compile(src[1..]))
  }

  function Prepend(a: Atom, rest: Option<seq<Atom>>): (r: Option<seq<Atom>>) {
    match rest
    case None => None
    case Some(atoms) => Some([a] + atoms)
  }

  /** The atoms of a text read literally. */
  function Literals(text: string): (r: seq<Atom>)
    ensures |r| == |text| && forall i :: 0 <= i < |text| ==> r[i] == Literal(text[i])
  {
    seq(|text|, i requires 0 <= i < |text| => Literal(text[i]))
  }

  /** ASCII lower-casing; every other character is its own lower case. */
  function Lower(ch: char): char {
    if 'A' <= ch <= 'Z' then (ch as int + 32) as char else ch
  }

  function LowerStr(s: string): (r: string)
    ensures |r| == |s| && forall i :: 0 <= i < |s| ==> r[i] == Lower(s[i])
  {
    seq(|s|, i requires 0 <= i < |s| => Lower(s[i]))
  }

  predicate SameChar(p: char, ch: char, ignoreCase: bool) {
    if ignoreCase then Lower(p) == Lower(ch) else p == ch
  }

  /** `re.match`: the atoms match some prefix of `s`. */
  predicate Matches(atoms: seq<Atom>, s: string, ignoreCase: bool)
    decreases |atoms|
  {
    if atoms == [] then true
    else match atoms[0]
      case End => (s == [] || s == "\n") && Matches(atoms[1..], s, ignoreCase)
      case Digit => s != [] && IsDigit(s[0]) && Matches(atoms[1..], s[1..], ignoreCase)
      case AnyChar => s != [] && s[0] != '\n' && Matches(atoms[1..], s[1..], ignoreCase)
      case Literal(p) => s != [] && SameChar(p, s[0], ignoreCase) && Matches(atoms[1..], s[1..], ignoreCase)
  }

  /** `re.search`: the atoms match at some position of `s`, tried left to right. */
  predicate Search(atoms: seq<Atom>, s: string, ignoreCase: bool)
    decreases |s|
  {
    Matches(atoms, s, ignoreCase) || (s != [] && Search(atoms, s[1..], ignoreCase))
  }

  /** A text without special characters compiles to its literal characters. */
  lemma {:induction false} CompileLiteralText(text: string)
    requires forall i :: 0 <= i < |text| ==> !IsMeta(text[i])
    ensures Compile(text) == Some(Literals(text))
    decreases |text|
  {
    if text != [] {
      assert !IsMeta(text[0]);
      CompileLiteralText(text[1..]);
      assert Literals(text) == [Literal(text[0])] + Literals(text[1..]);
    }
  }

  /** A search succeeds iff the pattern matches at some start position. */
  lemma {:induction false} SearchAtSomePosition(atoms: seq<Atom>, s: string, ignoreCase: bool)
    ensures Search(atoms, s, ignoreCase) <==> exists k :: 0 <= k <= |s| && Matches(atoms, s[k..], ignoreCase)
    decreases |s|
  {
    if s != [] {
      SearchAtSomePosition(atoms, s[1..], ignoreCase);
      if exists k :: 0 <= k <= |s| && Matches(atoms, s[k..], ignoreCase) {
        var k :| 0 <= k <= |s| && Matches(atoms, s[k..], ignoreCase);
        if k > 0 {
          assert s[1..][k - 1..] == s[k..];
          assert Matches(atoms, s[1..][k - 1..], ignoreCase);
          assert Search(atoms, s[1..], ignoreCase);
        }
      }
      if Search(atoms, s[1..], ignoreCase) {
        var k :| 0 <= k <= |s| - 1 && Matches(atoms, s[1..][k..], ignoreCase);
        assert s[1..][k..] == s[k + 1..];
        assert Matches(atoms, s[k + 1..], ignoreCase);
      }
    } else {
      assert s[0..] == s;
    }
  }

  /** Literal atoms match a prefix iff the prefix spells the text, up to
      ASCII case when the flag is set. */
  lemma {:induction false} LiteralsMatch(text: string, s: string, ignoreCase: bool)
    ensures Matches(Literals(text), s, ignoreCase) <==>
      |text| <= |s| && forall i :: 0 <= i < |text| ==> SameChar(text[i], s[i], ignoreCase)
    decreases |text|
  {
    if text != [] && s != [] {
      assert Literals(text)[1..] == Literals(text[1..]);
      LiteralsMatch(text[1..], s[1..], ignoreCase);
      if |text| <= |s| && forall i :: 0 <= i < |text| ==> SameChar(text[i], s[i], ignoreCase) {
        assert forall i :: 0 <= i < |text| - 1 ==> SameChar(text[1..][i], s[1..][i], ignoreCase);
      }
      if Matches(Literals(text), s, ignoreCase) {
        forall i | 0 < i < |text|
          ensures SameChar(text[i], s[i], ignoreCase)
        {
          assert text[i] == text[1..][i - 1] && s[i] == s[1..][i - 1];
        }
      }
    }
  }
}
