/**
 * The two regular expressions checkMultisite runs, encoded as string
 * predicates with the meaning PCRE gives them:
 *
 *   on wp-config.php   ^define\(\s*('|")MULTISITE\1\s*,\s*true\s*\)   flags m, i
 *   on .env            ^WP_MULTISITE=true$                           flags m, i
 *
 * Flag `m` makes `^` match at the start of the text and after every '\n',
 * and `$` before every '\n' and at the end. Flag `i` folds ASCII letters
 * only (no UTF mode), so matching is done on the lower-cased text against
 * lower-case literals; none of `\s`, the quotes, ',', '(' or ')' changes
 * under that folding. `\s` is PCRE2's set: space, \t, \n, \v, \f and \r,
 * so the define pattern may run across lines.
 */
module Patterns {
  import opened PhpStrings

  predicate IsRegexSpace(c: char) {
    c == ' ' || c == '\t' || c == '\n' || c == 11 as char || c == 12 as char || c == '\r'
  }

  predicate AllRegexSpace(s: string) {
    forall i :: 0 <= i < |s| ==> IsRegexSpace(s[i])
  }

  predicate IsQuote(c: char) {
    c == '\'' || c == '"'
  }

  /**
   * `^` under flag m: index `i` starts a line of `s`. PCRE matches it at
   * the start and after every '\n' except one that ends the text.
   */
  predicate LineStart(s: string, i: nat) {
    i == 0 || (i < |s| && s[i - 1] == '\n')
  }

  /**
   * `\s*` at the front of `t`: what follows the longest run of whitespace.
   * Every character after `\s*` in the define pattern is a non-space
   * literal, so backtracking into the run can never help and the greedy
   * run is the only one that can lead to a match.
   */
  function SkipSpace(t: string): (r: string)
    ensures |r| <= |t| && r == t[|t| - |r|..]
    ensures AllRegexSpace(t[..|t| - |r|])
    ensures r == [] || !IsRegexSpace(r[0])
  {
    if t != [] && IsRegexSpace(t[0]) then SkipSpace(t[1..]) else t
  }

  lemma {:induction false} SkipSpaceOver(ws: string, x: string)
    requires AllRegexSpace(ws)
    requires x == [] || !IsRegexSpace(x[0])
    ensures SkipSpace(ws + x) == x
  {
    if ws == [] {
      assert ws + x == x;
    } else {
      assert (ws + x)[1..] == ws[1..] + x;
      SkipSpaceOver(ws[1..], x);
    }
  }

  /**
   * The define pattern anchored at the front of the lower-cased text `t`,
   * scanned left to right the way the regex engine does: `define\(`, then
   * the rest of the pattern on what `\s*` leaves.
   */
  predicate DefineAt(t: string) {
    "define(" <= t && AfterOpen(SkipSpace(t[7..]))
  }

  /** `('|")MULTISITE\1`, then the rest. */
  predicate AfterOpen(t: string) {
    |t| >= 11 && IsQuote(t[0]) && t[1..10] == "multisite" && t[10] == t[0] && AfterKey(SkipSpace(t[11..]))
  }

  /** `,`, then the rest. */
  predicate AfterKey(t: string) {
    t != [] && t[0] == ',' && AfterComma(SkipSpace(t[1..]))
  }

  /** `true`, then the rest. */
  predicate AfterComma(t: string) {
    "true" <= t && AfterValue(SkipSpace(t[4..]))
  }

  /** `\)`: the end of the pattern; what follows does not matter. */
  predicate AfterValue(t: string) {
    t != [] && t[0] == ')'
  }

  /** A text that the define pattern matches, built from its parts. */
  function DefineLine(ws1: string, q: char, ws2: string, ws3: string, ws4: string, rest: string): string {
    "define(" + (ws1 + KeyPart(q, ws2, ws3, ws4, rest))
  }

  function KeyPart(q: char, ws2: string, ws3: string, ws4: string, rest: string): string {
    [q] + ("multisite" + ([q] + (ws2 + CommaPart(ws3, ws4, rest))))
  }

  function CommaPart(ws3: string, ws4: string, rest: string): string {
    "," + (ws3 + ValuePart(ws4, rest))
  }

  function ValuePart(ws4: string, rest: string): string {
    "true" + (ws4 + (")" + rest))
  }

  /** The pattern read declaratively: some choice of whitespace runs and one quote character. */
  ghost predicate DefineShape(t: string) {
    exists ws1, q, ws2, ws3, ws4, rest ::
      AllRegexSpace(ws1) && IsQuote(q) && AllRegexSpace(ws2) && AllRegexSpace(ws3) && AllRegexSpace(ws4) &&
      t == DefineLine(ws1, q, ws2, ws3, ws4, rest)
  }

  /** The scanner accepts exactly the texts of the declarative shape. */
  lemma DefineAtIff(t: string)
    ensures DefineAt(t) <==> DefineShape(t)
  {
    if DefineAt(t) {
      DefineAtHasShape(t);
    }
    if DefineShape(t) {
      var ws1, q, ws2, ws3, ws4, rest :|
        AllRegexSpace(ws1) && IsQuote(q) && AllRegexSpace(ws2) && AllRegexSpace(ws3) && AllRegexSpace(ws4) &&
        t == DefineLine(ws1, q, ws2, ws3, ws4, rest);
      ShapeIsDefineAt(ws1, q, ws2, ws3, ws4, rest);
    }
  }

  /*
   * The two directions are proved layer by layer, one literal of the
   * pattern at a time, each layer over an abstract remainder `x`.
   */

  /** `t` is a run of whitespace, then what `SkipSpace` leaves. */
  lemma SkipSpaceSplits(t: string) returns (ws: string)
    ensures AllRegexSpace(ws) && t == ws + SkipSpace(t)
  {
    ws := t[..|t| - |SkipSpace(t)|];
  }

  /** A literal `lit` in front of `x`, and `x` recovered by dropping it. */
  lemma LiteralFront(lit: string, x: string)
    ensures lit <= lit + x && (lit + x)[|lit|..] == x
  {
  }

  lemma LiteralSplit(lit: string, t: string)
    requires lit <= t
    ensures t == lit + t[|lit|..]
  {
  }

  lemma DefineAtHasShape(t: string)
    requires DefineAt(t)
    ensures DefineShape(t)
  {
    LiteralSplit("define(", t);
    var ws1 := SkipSpaceSplits(t[7..]);
    var q, ws2, ws3, ws4, rest := AfterOpenHasShape(SkipSpace(t[7..]));
    assert t == DefineLine(ws1, q, ws2, ws3, ws4, rest);
  }

  lemma AfterOpenHasShape(t: string) returns (q: char, ws2: string, ws3: string, ws4: string, rest: string)
    requires AfterOpen(t)
    ensures IsQuote(q) && AllRegexSpace(ws2) && AllRegexSpace(ws3) && AllRegexSpace(ws4)
    ensures t == KeyPart(q, ws2, ws3, ws4, rest)
  {
    q := t[0];
    KeyRebuilt(t);
    ws2 := SkipSpaceSplits(t[11..]);
    ws3, ws4, rest := AfterKeyHasShape(SkipSpace(t[11..]));
  }

  lemma KeyRebuilt(t: string)
    requires |t| >= 11 && t[1..10] == "multisite" && t[10] == t[0]
    ensures t == [t[0]] + ("multisite" + ([t[0]] + t[11..]))
  {
  }

  lemma AfterKeyHasShape(t: string) returns (ws3: string, ws4: string, rest: string)
    requires AfterKey(t)
    ensures AllRegexSpace(ws3) && AllRegexSpace(ws4) && t == CommaPart(ws3, ws4, rest)
  {
    LiteralSplit(",", t);
    ws3 := SkipSpaceSplits(t[1..]);
    ws4, rest := AfterCommaHasShape(SkipSpace(t[1..]));
  }

  lemma AfterCommaHasShape(t: string) returns (ws4: string, rest: string)
    requires AfterComma(t)
    ensures AllRegexSpace(ws4) && t == ValuePart(ws4, rest)
  {
    LiteralSplit("true", t);
    ws4 := SkipSpaceSplits(t[4..]);
    var w := SkipSpace(t[4..]);
    rest := w[1..];
    LiteralSplit(")", w);
  }

  lemma ShapeIsDefineAt(ws1: string, q: char, ws2: string, ws3: string, ws4: string, rest: string)
    requires AllRegexSpace(ws1) && IsQuote(q) && AllRegexSpace(ws2) && AllRegexSpace(ws3) && AllRegexSpace(ws4)
    ensures DefineAt(DefineLine(ws1, q, ws2, ws3, ws4, rest))
  {
    ValueMatches(ws4, ")" + rest);
    CommaMatches(ws3, ValuePart(ws4, rest));
    KeyMatches(q, ws2, CommaPart(ws3, ws4, rest));
    OpenMatches(ws1, KeyPart(q, ws2, ws3, ws4, rest));
  }

  lemma OpenMatches(ws1: string, x: string)
    requires AllRegexSpace(ws1) && AfterOpen(x)
    ensures DefineAt("define(" + (ws1 + x))
  {
    LiteralFront("define(", ws1 + x);
    SkipSpaceToQuote(ws1, x);
    DefineFrom("define(" + (ws1 + x), x);
  }

  lemma SkipSpaceToQuote(ws: string, x: string)
    requires AllRegexSpace(ws) && x != [] && IsQuote(x[0])
    ensures SkipSpace(ws + x) == x
  {
    SkipSpaceOver(ws, x);
  }

  lemma DefineFrom(t: string, x: string)
    requires "define(" <= t && SkipSpace(t[7..]) == x && AfterOpen(x)
    ensures DefineAt(t)
  {
  }

  lemma KeyMatches(q: char, ws2: string, x: string)
    requires IsQuote(q) && AllRegexSpace(ws2) && AfterKey(x)
    ensures AfterOpen([q] + ("multisite" + ([q] + (ws2 + x))))
  {
    KeyFacts(q, ws2 + x);
    SkipSpaceOver(ws2, x);
  }

  /** The characters of the key part that the scanner looks at. */
  lemma KeyFacts(q: char, x: string)
    ensures |[q] + ("multisite" + ([q] + x))| >= 11
    ensures ([q] + ("multisite" + ([q] + x)))[0] == q
    ensures ([q] + ("multisite" + ([q] + x)))[1..10] == "multisite"
    ensures ([q] + ("multisite" + ([q] + x)))[10] == q
    ensures ([q] + ("multisite" + ([q] + x)))[11..] == x
  {
  }

  /** `\1` is a back-reference: a key quoted with two different quotes is not matched. */
  lemma QuotesMustAgree(ws1: string, q1: char, q2: char, x: string)
    requires AllRegexSpace(ws1) && IsQuote(q1) && q1 != q2
    ensures !DefineAt("define(" + (ws1 + ([q1] + ("multisite" + ([q2] + x)))))
  {
    var key := [q1] + ("multisite" + ([q2] + x));
    LiteralFront("define(", ws1 + key);
    SkipSpaceToQuote(ws1, key);
    assert key[0] == q1 && key[10] == q2;
  }

  lemma CommaMatches(ws3: string, x: string)
    requires AllRegexSpace(ws3) && AfterComma(x)
    ensures AfterKey("," + (ws3 + x))
  {
    LiteralFront(",", ws3 + x);
    SkipSpaceOver(ws3, x);
  }

  lemma ValueMatches(ws4: string, x: string)
    requires AllRegexSpace(ws4) && AfterValue(x)
    ensures AfterComma("true" + (ws4 + x))
  {
    LiteralFront("true", ws4 + x);
    SkipSpaceOver(ws4, x);
  }

  /** The first regex of checkMultisite: a line of wp-config.php defines MULTISITE as true. */
  predicate DeclaresMultisite(contents: string) {
    var t := Lower(contents);
    exists i: nat | i <= |t| :: LineStart(t, i) && DefineAt(t[i..])
  }

  /** The line that marks a multisite in wp-config.php is matched. */
  lemma MultisiteDefineDeclares()
    ensures DeclaresMultisite("define('MULTISITE', true);")
  {
    var t := DefineLine("", '\'', "", " ", "", ";");
    DefineExamplePieces();
    ShapeIsDefineAt("", '\'', "", " ", "", ";");
    assert LineStart(t, 0) && t[0..] == t;
  }

  lemma DefineExamplePieces()
    ensures Lower("define('MULTISITE', true);") == DefineLine("", '\'', "", " ", "", ";")
  {
    LowerSplit("define('", "MULTISITE", "', true);");
    LowerKeeps("define('");
    LowerKeeps("', true);");
    LowerKey();
    DefineExampleLine();
  }

  lemma DefineExampleLine()
    ensures "define('" + "multisite" + "', true);" == DefineLine("", '\'', "", " ", "", ";")
  {
  }

  lemma LowerKey()
    ensures Lower("MULTISITE") == "multisite"
  {
  }

  /** `^w$` under flag m, at index `i`: the line starting at `i` is exactly `w`. */
  predicate LineIs(t: string, i: nat, w: string) {
    StartsAt(t, i, w) && (i + |w| == |t| || t[i + |w|] == '\n')
  }

  predicate MatchesLine(t: string, w: string) {
    exists i: nat | i <= |t| :: LineStart(t, i) && LineIs(t, i, w)
  }

  /** The second regex of checkMultisite: a line of .env is WP_MULTISITE=true. */
  predicate EnablesMultisite(contents: string) {
    MatchesLine(Lower(contents), "wp_multisite=true")
  }

  /** The lines of `s`, split at every '\n' (n newlines give n + 1 lines). */
  function Lines(s: string): (r: seq<string>)
    ensures |r| >= 1
    decreases |s|
  {
    var l := FirstLine(s);
    if |l| == |s| then [s] else [l] + Lines(s[|l| + 1..])
  }

  /**
   * Matching `^w$` under flag m, for a non-empty `w`, is the same as `w`
   * being one of the lines.
   */
  lemma MatchesLineIff(s: string, w: string)
    requires '\n' !in w && w != ""
    ensures MatchesLine(s, w) <==> w in Lines(s)
  {
    if MatchesLine(s, w) {
      MatchedLineIsLine(s, w);
    }
    if w in Lines(s) {
      LineIsMatched(s, w);
    }
  }

  lemma {:induction false} MatchedLineIsLine(s: string, w: string)
    requires '\n' !in w
    requires MatchesLine(s, w)
    ensures w in Lines(s)
    decreases |s|
  {
    var i: nat :| i <= |s| && LineStart(s, i) && LineIs(s, i, w);
    var l := FirstLine(s);
    if i <= |l| {
      FirstLineMatch(s, i, w);
      assert Lines(s)[0] == l;
    } else {
      var rest := s[|l| + 1..];
      ShiftMatch(s, |l| + 1, i, w);
      assert MatchesLine(rest, w);
      MatchedLineIsLine(rest, w);
      assert Lines(s) == [l] + Lines(rest);
    }
  }

  lemma {:induction false} LineIsMatched(s: string, w: string)
    requires w in Lines(s) && w != ""
    ensures MatchesLine(s, w)
    decreases |s|
  {
    var l := FirstLine(s);
    if w == l {
      assert s[..|l|] == l;
      assert LineStart(s, 0) && LineIs(s, 0, w);
    } else {
      assert |l| < |s|;
      var rest := s[|l| + 1..];
      assert Lines(s) == [l] + Lines(rest);
      LineIsMatched(rest, w);
      var j: nat :| j <= |rest| && LineStart(rest, j) && LineIs(rest, j, w);
      UnshiftMatch(s, |l| + 1, j, w);
    }
  }

  /** A match that starts inside the first line is the whole first line. */
  lemma FirstLineMatch(s: string, i: nat, w: string)
    requires '\n' !in w
    requires i <= |FirstLine(s)| && LineStart(s, i) && LineIs(s, i, w)
    ensures i == 0 && w == FirstLine(s)
  {
    var l := FirstLine(s);
    assert forall j :: 0 <= j < |l| ==> s[j] == l[j];
    assert forall j :: 0 <= j < |w| ==> s[i + j] == w[j];
    assert i == 0;
    assert |w| == |l|;
    assert w == s[..|l|];
  }

  /** A line match after the newline at `k - 1` is a line match of the text after it. */
  lemma ShiftMatch(s: string, k: nat, i: nat, w: string)
    requires 0 < k <= i <= |s| && s[k - 1] == '\n'
    requires LineStart(s, i) && LineIs(s, i, w)
    ensures LineStart(s[k..], i - k) && LineIs(s[k..], i - k, w)
  {
    var rest := s[k..];
    var j := i - k;
    assert rest[j..j + |w|] == s[i..i + |w|];
    assert j > 0 ==> rest[j - 1] == s[i - 1];
    assert j + |w| < |rest| ==> rest[j + |w|] == s[i + |w|];
  }

  lemma UnshiftMatch(s: string, k: nat, j: nat, w: string)
    requires 0 < k <= |s| && s[k - 1] == '\n' && j <= |s| - k && w != ""
    requires LineStart(s[k..], j) && LineIs(s[k..], j, w)
    ensures LineStart(s, j + k) && LineIs(s, j + k, w)
  {
    var rest := s[k..];
    var i := j + k;
    assert rest[j..j + |w|] == s[i..i + |w|];
    assert j > 0 ==> rest[j - 1] == s[i - 1];
    assert j + |w| < |rest| ==> rest[j + |w|] == s[i + |w|];
  }

  /**
   * The empty line after a final '\n' is one of the lines, but `^$` does
   * not match there: "a\n" has no empty line for `^$` under flag m.
   */
  lemma NoMatchAfterFinalNewline()
    ensures "" in Lines("a\n")
    ensures !MatchesLine("a\n", "")
  {
    var s := "a\n";
    assert FirstLine(s) == "a" by {
      assert s == "a" + "\n";
      assert FirstLine("") == "";
    }
    assert s[2..] == "";
    assert Lines(s) == ["a"] + Lines("");
    forall i: nat | i <= |s| ensures !(LineStart(s, i) && LineIs(s, i, "")) {
      assert s[0] == 'a' && s[1] == '\n';
    }
  }

  /** Lower-casing keeps the line structure: line k of the folded text is line k, folded. */
  lemma {:induction false} LinesOfLower(s: string)
    ensures |Lines(Lower(s))| == |Lines(s)|
    ensures forall k :: 0 <= k < |Lines(s)| ==> Lines(Lower(s))[k] == Lower(Lines(s)[k])
    decreases |s|
  {
    var l := FirstLine(s);
    var t := Lower(s);
    FirstLineOfLower(s);
    if |l| < |s| {
      assert Lower(s[|l| + 1..]) == t[|l| + 1..];
      LinesOfLower(s[|l| + 1..]);
    } else {
      assert l == s;
    }
  }

  lemma LowerCons(c: char, x: string)
    ensures Lower([c] + x) == [LowerChar(c)] + Lower(x)
  {
    assert |Lower([c] + x)| == |[LowerChar(c)] + Lower(x)|;
    forall i | 0 <= i < 1 + |x| ensures Lower([c] + x)[i] == ([LowerChar(c)] + Lower(x))[i] {
      if i > 0 { assert ([c] + x)[i] == x[i - 1]; }
    }
  }

  lemma {:induction false} FirstLineOfLower(s: string)
    ensures FirstLine(Lower(s)) == Lower(FirstLine(s))
    decreases |s|
  {
    if s != [] && s[0] != '\n' {
      assert s == [s[0]] + s[1..];
      LowerCons(s[0], s[1..]);
      assert LowerChar(s[0]) != '\n';
      FirstLineOfLower(s[1..]);
      LowerCons(s[0], FirstLine(s[1..]));
    } else {
      assert FirstLine(s) == [];
    }
  }

  /** .env enables multisite iff one of its lines is, ignoring ASCII case, WP_MULTISITE=true. */
  lemma EnablesMultisiteIff(contents: string)
    ensures EnablesMultisite(contents) <==>
      exists k :: 0 <= k < |Lines(contents)| && Lower(Lines(contents)[k]) == "wp_multisite=true"
  {
    MatchesLineIff(Lower(contents), "wp_multisite=true");
    LinesOfLower(contents);
    var ls := Lines(contents);
    if EnablesMultisite(contents) {
      var k :| 0 <= k < |Lines(Lower(contents))| && Lines(Lower(contents))[k] == "wp_multisite=true";
      assert Lower(ls[k]) == "wp_multisite=true";
    }
    if exists k :: 0 <= k < |ls| && Lower(ls[k]) == "wp_multisite=true" {
      var k :| 0 <= k < |ls| && Lower(ls[k]) == "wp_multisite=true";
      assert Lines(Lower(contents))[k] == "wp_multisite=true";
    }
  }

  /** Folding commutes with taking a suffix, and keeps line starts. */
  lemma LowerSuffix(s: string, i: nat)
    requires i <= |s|
    ensures Lower(s)[i..] == Lower(s[i..])
    ensures LineStart(Lower(s), i) <==> LineStart(s, i)
  {
  }

  /**
   * wp-config.php declares multisite iff at some line start the rest of the
   * text, with ASCII letters folded, has the define shape.
   */
  lemma DeclaresMultisiteIff(contents: string)
    ensures DeclaresMultisite(contents) <==>
      exists i: nat | i <= |contents| :: LineStart(contents, i) && DefineShape(Lower(contents[i..]))
  {
    var t := Lower(contents);
    if DeclaresMultisite(contents) {
      var i: nat :| i <= |t| && LineStart(t, i) && DefineAt(t[i..]);
      LowerSuffix(contents, i);
      DefineAtIff(t[i..]);
    }
    if exists i: nat | i <= |contents| :: LineStart(contents, i) && DefineShape(Lower(contents[i..])) {
      var i: nat :| i <= |contents| && LineStart(contents, i) && DefineShape(Lower(contents[i..]));
      LowerSuffix(contents, i);
      DefineAtIff(t[i..]);
      assert LineStart(t, i) && DefineAt(t[i..]);
    }
  }
}
