/**
 * The PHP string primitives the driver relies on (substr with a negative
 * start, strpos, strrpos, rtrim, truthiness of a string), stated over
 * `string`, which is `seq<char>`. Only ASCII matters to the driver: PHP
 * strings are byte strings and every literal the driver compares against
 * is ASCII.
 */
module PhpStrings {

  /** Result of a search, like strpos/strrpos: an index or `false`. */
  datatype Position = NotFound | At(index: nat)

  /** True when `s` ends with `suffix`. */
  predicate EndsWith(s: string, suffix: string) {
    |suffix| <= |s| && s[|s| - |suffix|..] == suffix
  }

  /** True when `w` occurs in `s` starting at index `k`. */
  predicate StartsAt(s: string, k: nat, w: string) {
    k + |w| <= |s| && s[k..k + |w|] == w
  }

  /** `strpos($s, $needle) !== false`. */
  predicate Contains(s: string, needle: string) {
    exists i: nat | i <= |s| :: StartsAt(s, i, needle)
  }

  /** PHP truthiness of a string: "" and "0" are false, every other string is true. */
  predicate Truthy(s: string) {
    s != "" && s != "0"
  }

  /**
   * `substr($s, -$n)`: the last `n` characters of `s`; when `s` is
   * shorter than `n` PHP clamps the start to 0 and returns all of `s`.
   */
  function LastChars(s: string, n: nat): (r: string)
    ensures |r| == if |s| <= n then |s| else n
    ensures EndsWith(s, r)
  {
    if |s| <= n then s else s[|s| - n..]
  }

  /** Case folding of the default PCRE character tables: ASCII letters only. */
  function LowerChar(c: char): char {
    if 'A' <= c <= 'Z' then (c as int + 32) as char else c
  }

  function Lower(s: string): (r: string)
    ensures |r| == |s|
    ensures forall i :: 0 <= i < |s| ==> r[i] == LowerChar(s[i])
  {
    seq(|s|, i requires 0 <= i < |s| => LowerChar(s[i]))
  }

  /** Folding leaves a text without upper-case ASCII letters as it is. */
  lemma LowerKeeps(s: string)
    requires forall i :: 0 <= i < |s| ==> !('A' <= s[i] <= 'Z')
    ensures Lower(s) == s
  {
  }

  /** Folding is done character by character, so it distributes over concatenation. */
  lemma LowerSplit(a: string, b: string, c: string)
    ensures Lower(a + b + c) == Lower(a) + Lower(b) + Lower(c)
  {
  }

  /**
   * `rtrim($s, $chars)`: `s` without its longest suffix made of characters
   * in `chars`.
   */
  function RTrim(s: string, chars: set<char>): (r: string)
    ensures r <= s
    ensures r == [] || r[|r| - 1] !in chars
    ensures forall i :: |r| <= i < |s| ==> s[i] in chars
    decreases |s|
  {
    if s != [] && s[|s| - 1] in chars then RTrim(s[..|s| - 1], chars) else s
  }

  /** The characters `rtrim($s)` strips when given no character list: " \t\n\r\0\x0B". */
  const PhpTrimCharacters: set<char> := {' ', '\t', '\n', '\r', 0 as char, 11 as char}

  /** The characters rtrim($s, '/') strips. */
  const Slash: set<char> := {'/'}

  /** rtrim leaves a text alone when its last character is not trimmed. */
  lemma RTrimKeeps(s: string, chars: set<char>)
    requires s == [] || s[|s| - 1] !in chars
    ensures RTrim(s, chars) == s
  {
  }

  /** rtrim drops a trimmed last character and goes on. */
  lemma RTrimDrops(s: string, c: char, chars: set<char>)
    requires c in chars
    ensures RTrim(s + [c], chars) == RTrim(s, chars)
  {
    assert (s + [c])[..|s|] == s;
  }

  /** rtrim drops a whole run of trimmed characters at the end and goes on. */
  lemma {:induction false} RTrimDropsRun(s: string, w: string, chars: set<char>)
    requires forall i :: 0 <= i < |w| ==> w[i] in chars
    ensures RTrim(s + w, chars) == RTrim(s, chars)
    decreases |w|
  {
    if w == [] {
      assert s + w == s;
    } else {
      var v := w[..|w| - 1];
      assert s + w == (s + v) + [w[|w| - 1]];
      RTrimDrops(s + v, w[|w| - 1], chars);
      RTrimDropsRun(s, v, chars);
    }
  }

  /** The first line of `s`: everything before its first '\n'. */
  function FirstLine(s: string): (r: string)
    ensures r <= s
    ensures '\n' !in r
    ensures |r| < |s| ==> s[|r|] == '\n'
  {
    if s == [] || s[0] == '\n' then [] else [s[0]] + FirstLine(s[1..])
  }

  /** `strrpos($s, '/')`: the index of the last '/' of `s`. */
  function LastSlash(s: string): (p: Position)
    ensures p.At? ==> p.index < |s| && s[p.index] == '/' && '/' !in s[p.index + 1..]
    ensures p.NotFound? ==> '/' !in s
  {
    if s == [] then NotFound
    else if s[|s| - 1] == '/' then At(|s| - 1)
    else LastSlash(s[..|s| - 1])
  }

  /** A '/' with no '/' after it is the one strrpos finds. */
  lemma LastSlashUnique(s: string, k: nat)
    requires k < |s| && s[k] == '/' && '/' !in s[k + 1..]
    ensures LastSlash(s) == At(k)
  {
    assert s[k] in s;
  }

  /** An occurrence of `w` is an occurrence of each prefix of `w`. */
  lemma StartsAtPrefix(s: string, k: nat, w: string, v: string)
    requires StartsAt(s, k, w) && v <= w
    ensures StartsAt(s, k, v)
  {
    assert s[k..k + |v|] == s[k..k + |w|][..|v|];
  }

  /** `w` occurs in `a + w + b` right after `a`. */
  lemma StartsAtJoin(a: string, w: string, b: string)
    ensures StartsAt(a + w + b, |a|, w)
  {
    assert (a + w + b)[|a|..|a| + |w|] == w;
  }

  /** A text that ends with `t` contains whatever `t` contains. */
  lemma ContainsInSuffix(t: string, s: string, needle: string)
    requires EndsWith(s, t)
    requires Contains(t, needle)
    ensures Contains(s, needle)
  {
    var i: nat :| i <= |t| && StartsAt(t, i, needle);
    var k := |s| - |t|;
    assert s[k + i..k + i + |needle|] == t[i..i + |needle|];
    assert StartsAt(s, k + i, needle);
  }

  /** A prefix of `p` that contains `needle` makes `s` contain it too. */
  lemma ContainsExtends(p: string, s: string, needle: string)
    requires p <= s
    requires Contains(p, needle)
    ensures Contains(s, needle)
  {
    var i: nat :| i <= |p| && StartsAt(p, i, needle);
    assert s[i..i + |needle|] == p[i..i + |needle|];
    assert StartsAt(s, i, needle);
  }
}
