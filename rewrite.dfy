/**
 * rewriteMultisite and forceTrailingSlash: the URI rewriting that imitates
 * the rewrite rules of a WordPress multisite .htaccess.
 *
 * The two rules are PCRE patterns without flags:
 *
 *   rule 1   ^(.*)?(\/wp-(content|admin|includes).*)    result: group 2
 *   rule 2   ^(.*)?(\/.*\.php)$                         result: group 2
 *
 * Without flag s, `.` matches anything but '\n'; without flag m, `^` is the
 * start of the text and `$` is its end or the position before a final '\n'.
 * The leading `(.*)?` is greedy, so group 2 starts at the LAST place where
 * the rest of the pattern can match.
 */
module Rewrite {
  import opened PhpStrings

  /** What forceTrailingSlash + rewriteMultisite produce: a redirect that ends the request, or a URI. */
  datatype Rewritten = Redirect(location: string) | Continue(uri: string)

  /**
   * forceTrailingSlash's test, `substr($uri, -strlen('/wp-admin')) == '/wp-admin'`:
   * exactly "the URI ends with /wp-admin".
   */
  function NeedsTrailingSlash(uri: string): (b: bool)
    ensures b <==> EndsWith(uri, "/wp-admin")
  {
    LastChars(uri, |"/wp-admin"|) == "/wp-admin"
  }

  /** `\/wp-(content|admin|includes)` matches at index `k` of `s`. */
  predicate AdminWordAt(s: string, k: nat) {
    StartsAt(s, k, "/wp-content") || StartsAt(s, k, "/wp-admin") || StartsAt(s, k, "/wp-includes")
  }

  /** Rule 1 finds no admin word anywhere in `s`. */
  predicate NoAdminWord(s: string) {
    forall j :: 0 <= j <= |s| ==> !AdminWordAt(s, j)
  }

  /** The largest index `j <= n` at which `AdminWordAt(s, j)` holds. */
  function LastAdminWord(s: string, n: nat): (p: Position)
    requires n <= |s|
    ensures p.At? ==> p.index <= n && AdminWordAt(s, p.index)
    ensures p.At? ==> forall j :: p.index < j <= n ==> !AdminWordAt(s, j)
    ensures p.NotFound? ==> forall j :: 0 <= j <= n ==> !AdminWordAt(s, j)
    decreases n
  {
    if AdminWordAt(s, n) then At(n)
    else if n == 0 then NotFound
    else LastAdminWord(s, n - 1)
  }

  /** What `$` without flag m may stop before: a single final '\n'. */
  function WithoutFinalNewline(s: string): (r: string)
    ensures r <= s
  {
    if s != [] && s[|s| - 1] == '\n' then s[..|s| - 1] else s
  }

  /**
   * Rule 2. It matches when the text up to `$` has no '\n', ends in ".php"
   * and has a '/'; group 2 starts at the last '/', which lies before the
   * ".php".
   */
  predicate RuleTwoMatches(uri: string) {
    var body := WithoutFinalNewline(uri);
    '\n' !in body && EndsWith(body, ".php") && LastSlash(body).At?
  }

  /**
   * The multisite rules, first match wins; an unmatched URI is kept.
   * Rule 1 cannot reach past the first line, since neither `.*` crosses a
   * '\n'; its group 2 runs from the last word of that line to the line's end.
   */
  function MultisiteRules(uri: string): string {
    var line := FirstLine(uri);
    match LastAdminWord(line, |line|)
    case At(k) => line[k..]
    case NotFound =>
      if RuleTwoMatches(uri) then
        var body := WithoutFinalNewline(uri);
        body[LastSlash(body).index..]
      else uri
  }

  /**
   * rewriteMultisite: first the trailing-slash redirect, whatever the
   * multisite flag, then the multisite rules when the flag is set.
   */
  function RewriteUri(uri: string, multisite: bool): (r: Rewritten)
    ensures r.Redirect? <==> EndsWith(uri, "/wp-admin")
    ensures r.Redirect? ==> r.location == uri + "/"
    ensures r.Continue? && !multisite ==> r.uri == uri
  {
    if NeedsTrailingSlash(uri) then Redirect(uri + "/")
    else if multisite then Continue(MultisiteRules(uri))
    else Continue(uri)
  }

  // ---------------------------------------------------------------------
  // The rules on a URI without '\n', which is every URI a client can send
  // unencoded.
  // ---------------------------------------------------------------------

  lemma FirstLineOfLine(s: string)
    requires '\n' !in s
    ensures FirstLine(s) == s
  {
    assert forall j :: 0 <= j < |s| ==> s[j] != '\n';
  }

  lemma NoFinalNewline(s: string)
    requires '\n' !in s
    ensures WithoutFinalNewline(s) == s
  {
    assert forall j :: 0 <= j < |s| ==> s[j] != '\n';
  }

  lemma SliceIsSuffix(s: string, k: nat)
    requires k <= |s|
    ensures EndsWith(s, s[k..])
  {
  }

  /** Rule 1 keeps the suffix from the last /wp-content, /wp-admin or /wp-includes on. */
  lemma RuleOneCollapses(uri: string, k: nat)
    requires '\n' !in uri
    requires k <= |uri| && AdminWordAt(uri, k)
    requires forall j :: k < j <= |uri| ==> !AdminWordAt(uri, j)
    ensures MultisiteRules(uri) == uri[k..]
  {
    FirstLineOfLine(uri);
  }

  /**
   * Rule 2 keeps "/" and the last path segment when that segment ends in
   * ".php" and no earlier word matched rule 1.
   */
  lemma RuleTwoKeepsScript(dir: string, script: string)
    requires '\n' !in dir + "/" + script && '/' !in script && EndsWith(script, ".php")
    requires NoAdminWord(dir + "/" + script)
    ensures MultisiteRules(dir + "/" + script) == "/" + script
  {
    var uri := dir + "/" + script;
    NoRuleOne(uri);
    ScriptUriMatches(dir, script);
    RuleTwoAt(uri, |dir|);
  }

  /** Rule 1 finds nothing in a URI without '\n' and without an admin word. */
  lemma NoRuleOne(uri: string)
    requires '\n' !in uri && NoAdminWord(uri)
    ensures LastAdminWord(FirstLine(uri), |FirstLine(uri)|).NotFound?
  {
    FirstLineOfLine(uri);
    var p := LastAdminWord(uri, |uri|);
    assert p.At? ==> !AdminWordAt(uri, p.index);
  }

  /** Rule 2 decides when rule 1 finds nothing on the first line. */
  lemma RuleTwoAt(uri: string, k: nat)
    requires LastAdminWord(FirstLine(uri), |FirstLine(uri)|).NotFound? && RuleTwoMatches(uri)
    requires WithoutFinalNewline(uri) == uri && LastSlash(uri) == At(k)
    ensures k < |uri| && MultisiteRules(uri) == uri[k..]
  {
  }

  /** Such a URI matches rule 2, with its last '/' right after `dir`. */
  lemma ScriptUriMatches(dir: string, script: string)
    requires '\n' !in dir + "/" + script && '/' !in script && EndsWith(script, ".php")
    ensures RuleTwoMatches(dir + "/" + script)
    ensures WithoutFinalNewline(dir + "/" + script) == dir + "/" + script
    ensures LastSlash(dir + "/" + script) == At(|dir|)
    ensures (dir + "/" + script)[|dir|..] == "/" + script
  {
    var uri := dir + "/" + script;
    NoFinalNewline(uri);
    SliceAfter(dir, "/", script);
    SliceAfter(dir + "/", "", script);
    assert uri[|dir|] == '/';
    SliceIsSuffix(uri, |dir| + 1);
    EndsWithTransitive(uri, script, ".php");
    LastSlashUnique(uri, |dir|);
  }

  /** Dropping the first part of a three-part text. */
  lemma SliceAfter(a: string, b: string, c: string)
    ensures (a + b + c)[|a|..] == b + c
  {
    var s := a + b + c;
    assert forall i :: 0 <= i < |b + c| ==> s[|a|..][i] == (b + c)[i];
  }

  /** Without '\n', every rewritten URI is a suffix of the URI it came from. */
  lemma RewriteIsSuffix(uri: string, multisite: bool)
    requires '\n' !in uri
    ensures RewriteUri(uri, multisite).Continue? ==> EndsWith(uri, RewriteUri(uri, multisite).uri)
  {
    if NeedsTrailingSlash(uri) {
    } else if multisite {
      MultisiteRulesIsSuffix(uri);
    } else {
      SliceIsSuffix(uri, 0);
    }
  }

  lemma MultisiteRulesIsSuffix(uri: string)
    requires '\n' !in uri
    ensures EndsWith(uri, MultisiteRules(uri))
  {
    FirstLineOfLine(uri);
    NoFinalNewline(uri);
    match LastAdminWord(uri, |uri|)
    case At(k) =>
      SliceIsSuffix(uri, k);
    case NotFound =>
      if RuleTwoMatches(uri) {
        SliceIsSuffix(uri, LastSlash(uri).index);
      } else {
        SliceIsSuffix(uri, 0);
      }
  }

  /** An unmatched URI: no admin word, and not a '/'-containing ".php" path. */
  lemma NoRuleKeeps(uri: string)
    requires '\n' !in uri
    requires forall j :: 0 <= j <= |uri| ==> !AdminWordAt(uri, j)
    requires !EndsWith(uri, ".php") || '/' !in uri
    ensures MultisiteRules(uri) == uri
  {
    FirstLineOfLine(uri);
    NoFinalNewline(uri);
  }

  // ---------------------------------------------------------------------
  // Idempotence.
  // ---------------------------------------------------------------------

  /** Admin words of a suffix are the admin words of the text, shifted. */
  lemma AdminWordOfSuffix(s: string, k: nat, j: nat)
    requires k <= |s|
    ensures AdminWordAt(s[k..], j) <==> AdminWordAt(s, k + j)
  {
    assert StartsAt(s[k..], j, "/wp-content") <==> StartsAt(s, k + j, "/wp-content") by {
      if k + j + 11 <= |s| {
        assert s[k..][j..j + 11] == s[k + j..k + j + 11];
      }
    }
    assert StartsAt(s[k..], j, "/wp-admin") <==> StartsAt(s, k + j, "/wp-admin") by {
      if k + j + 9 <= |s| {
        assert s[k..][j..j + 9] == s[k + j..k + j + 9];
      }
    }
    assert StartsAt(s[k..], j, "/wp-includes") <==> StartsAt(s, k + j, "/wp-includes") by {
      if k + j + 12 <= |s| {
        assert s[k..][j..j + 12] == s[k + j..k + j + 12];
      }
    }
  }

  /** The result of rule 1 starts with its only admin word. */
  lemma RuleOneResultAlone(line: string, k: nat)
    requires k <= |line| && AdminWordAt(line, k)
    requires forall j :: k < j <= |line| ==> !AdminWordAt(line, j)
    ensures LastAdminWord(line[k..], |line| - k) == At(0)
  {
    var r := line[k..];
    AdminWordOfSuffix(line, k, 0);
    forall j | 0 < j <= |r| ensures !AdminWordAt(r, j) {
      AdminWordOfSuffix(line, k, j);
    }
  }

  /** Rule 1 applied to its own output gives it back. */
  lemma RuleOneIdempotent(uri: string, k: nat)
    requires LastAdminWord(FirstLine(uri), |FirstLine(uri)|) == At(k)
    ensures MultisiteRules(FirstLine(uri)[k..]) == FirstLine(uri)[k..]
  {
    var line := FirstLine(uri);
    var r := line[k..];
    assert forall j :: 0 <= j < |r| ==> r[j] == line[k + j];
    assert forall j :: 0 <= j < |line| ==> line[j] != '\n';
    FirstLineOfLine(r);
    RuleOneResultAlone(line, k);
  }

  /** The part of a text from its last '/' on, when the text ends in ".php". */
  lemma ScriptPart(body: string, i: nat)
    requires i < |body| && body[i] == '/' && '/' !in body[i + 1..]
    requires '\n' !in body && EndsWith(body, ".php")
    ensures var r := body[i..];
      '\n' !in r && EndsWith(r, ".php") && LastSlash(r) == At(0) && WithoutFinalNewline(r) == r
  {
    var r := body[i..];
    assert forall t :: |body| - 4 <= t < |body| ==> body[t] == ".php"[t - (|body| - 4)];
    assert i + 4 < |body|;
    assert r[|r| - 4..] == body[|body| - 4..];
    assert r[1..] == body[i + 1..];
    LastSlashUnique(r, 0);
    assert forall j :: 0 <= j < |r| ==> r[j] == body[i + j];
    assert forall j :: 0 <= j < |body| ==> body[j] != '\n';
  }

  /** Rule 2 applied to its own output gives it back. */
  lemma RuleTwoIdempotent(uri: string)
    requires LastAdminWord(FirstLine(uri), |FirstLine(uri)|).NotFound?
    requires RuleTwoMatches(uri)
    ensures MultisiteRules(MultisiteRules(uri)) == MultisiteRules(uri)
  {
    var body := WithoutFinalNewline(uri);
    var i := LastSlash(body).index;
    var r := body[i..];
    assert MultisiteRules(uri) == r;
    BodyIsFirstLine(uri);
    ScriptPart(body, i);
    NoAdminWordInSuffix(body, i);
    ScriptIsFixed(r);
  }

  /** No admin word in a text means none in any of its suffixes. */
  lemma NoAdminWordInSuffix(s: string, i: nat)
    requires i <= |s| && NoAdminWord(s)
    ensures NoAdminWord(s[i..])
  {
    forall j | 0 <= j <= |s[i..]| ensures !AdminWordAt(s[i..], j) {
      AdminWordOfSuffix(s, i, j);
    }
  }

  /** A "/name.php" without admin words is a fixed point of the rules. */
  lemma ScriptIsFixed(r: string)
    requires '\n' !in r && EndsWith(r, ".php") && LastSlash(r) == At(0) && WithoutFinalNewline(r) == r
    requires NoAdminWord(r)
    ensures MultisiteRules(r) == r
  {
    FirstLineOfLine(r);
  }

  /** Where rule 2 matches, the text up to `$` is the whole first line. */
  lemma BodyIsFirstLine(uri: string)
    requires '\n' !in WithoutFinalNewline(uri)
    ensures FirstLine(uri) == WithoutFinalNewline(uri)
  {
    var body := WithoutFinalNewline(uri);
    assert forall j :: 0 <= j < |body| ==> uri[j] == body[j] && body[j] != '\n';
    FirstLinePrefix(uri, |body|);
  }

  /** A text whose first `n` characters are not '\n' and whose next one is '\n' or absent. */
  lemma {:induction false} FirstLinePrefix(s: string, n: nat)
    requires n <= |s| && (n == |s| || s[n] == '\n')
    requires forall j :: 0 <= j < n ==> s[j] != '\n'
    ensures FirstLine(s) == s[..n]
    decreases n
  {
    if n > 0 {
      FirstLinePrefix(s[1..], n - 1);
      assert s[..n] == [s[0]] + s[1..][..n - 1];
    }
  }

  /** The multisite rules are idempotent on every URI, whatever it contains. */
  lemma MultisiteRulesIdempotent(uri: string)
    ensures MultisiteRules(MultisiteRules(uri)) == MultisiteRules(uri)
  {
    var line := FirstLine(uri);
    match LastAdminWord(line, |line|)
    case At(k) =>
      RuleOneIdempotent(uri, k);
    case NotFound =>
      if RuleTwoMatches(uri) {
        RuleTwoIdempotent(uri);
      }
  }

  /**
   * rewriteMultisite applied to its own output gives the same output,
   * unless that output ends with /wp-admin (which then redirects).
   */
  lemma RewriteIdempotent(uri: string, multisite: bool)
    requires RewriteUri(uri, multisite).Continue?
    requires !EndsWith(RewriteUri(uri, multisite).uri, "/wp-admin")
    ensures RewriteUri(RewriteUri(uri, multisite).uri, multisite) == RewriteUri(uri, multisite)
  {
    if multisite {
      MultisiteRulesIdempotent(uri);
    }
  }

  /** Ending with a text that ends with `w` is ending with `w`. */
  lemma EndsWithTransitive(s: string, t: string, w: string)
    requires EndsWith(s, t) && EndsWith(t, w)
    ensures EndsWith(s, w)
  {
    assert s[|s| - |w|..] == t[|t| - |w|..];
  }

  /** Without '\n', no rewritten URI ends with /wp-admin. */
  lemma RewriteNeverEndsInAdmin(uri: string, multisite: bool)
    requires '\n' !in uri
    requires RewriteUri(uri, multisite).Continue?
    ensures !EndsWith(RewriteUri(uri, multisite).uri, "/wp-admin")
  {
    var r := RewriteUri(uri, multisite).uri;
    RewriteIsSuffix(uri, multisite);
    if EndsWith(r, "/wp-admin") {
      EndsWithTransitive(uri, r, "/wp-admin");
      assert false;
    }
  }

  /** So on a URI without '\n', rewriteMultisite is idempotent outright. */
  lemma RewriteIdempotentWithoutNewline(uri: string, multisite: bool)
    requires '\n' !in uri
    requires RewriteUri(uri, multisite).Continue?
    ensures RewriteUri(RewriteUri(uri, multisite).uri, multisite) == RewriteUri(uri, multisite)
  {
    RewriteNeverEndsInAdmin(uri, multisite);
    RewriteIdempotent(uri, multisite);
  }

  /**
   * With a '\n', rule 1 may cut a first line down to "/wp-admin", and the
   * second pass then redirects: idempotence needs the newline-free input.
   */
  lemma NewlineBreaksIdempotence()
    ensures RewriteUri("/x/wp-admin\nz", true) == Continue("/wp-admin")
    ensures RewriteUri("/wp-admin", true) == Redirect("/wp-admin/")
  {
    NewlineExampleRules();
    NotEndingInAdmin("/x/wp-admin\nz");
    AdminRootRedirects(true);
  }

  lemma NewlineExampleRules()
    ensures MultisiteRules("/x/wp-admin\nz") == "/wp-admin"
  {
    var uri, line := "/x/wp-admin\nz", "/x/wp-admin";
    FirstLineOfExample();
    FirstLineRuleOne();
    FirstLineOfLine(line);
    SameRuleOne(uri, line);
  }

  /** Rule 1 only reads the first line. */
  lemma SameRuleOne(u: string, v: string)
    requires FirstLine(u) == FirstLine(v)
    requires LastAdminWord(FirstLine(u), |FirstLine(u)|).At?
    ensures MultisiteRules(u) == MultisiteRules(v)
  {
  }

  lemma FirstLineOfExample()
    ensures FirstLine("/x/wp-admin\nz") == "/x/wp-admin"
  {
    var uri := "/x/wp-admin\nz";
    assert uri[..11] == "/x/wp-admin";
    assert forall j :: 0 <= j < 11 ==> uri[j] == "/x/wp-admin"[j];
    FirstLinePrefix(uri, 11);
  }

  lemma FirstLineRuleOne()
    ensures MultisiteRules("/x/wp-admin") == "/wp-admin"
    ensures LastAdminWord("/x/wp-admin", 11) == At(2)
  {
    EmptyHasNoAdminWord();
    NewlinePieces();
    assert StartsAt("/wp-admin", 0, "/wp-admin");
    CollapseAt("/x", "wp-admin", "");
  }

  lemma NewlinePieces()
    ensures "/" + "wp-admin" + "" == "/wp-admin"
    ensures "/x" + "/wp-admin" == "/x/wp-admin"
  {
  }

  // ---------------------------------------------------------------------
  // Examples of the multisite rules.
  // ---------------------------------------------------------------------

  lemma AdminRootRedirects(multisite: bool)
    ensures RewriteUri("/wp-admin", multisite) == Redirect("/wp-admin/")
  {
  }

  /** Every admin word starts with "/wp-". */
  lemma AdminWordStart(s: string, j: nat)
    ensures AdminWordAt(s, j) ==> j + 4 <= |s| && s[j] == '/' && s[j + 1] == 'w'
  {
    if StartsAt(s, j, "/wp-content") {
      StartsAtPrefix(s, j, "/wp-content", "/wp-");
    } else if StartsAt(s, j, "/wp-admin") {
      StartsAtPrefix(s, j, "/wp-admin", "/wp-");
    } else if StartsAt(s, j, "/wp-includes") {
      StartsAtPrefix(s, j, "/wp-includes", "/wp-");
    }
    if StartsAt(s, j, "/wp-") {
      assert s[j..j + 4][0] == s[j] && s[j..j + 4][1] == s[j + 1];
    }
  }

  /** Positions past a prefix: admin words of `a + b` there are those of `b`. */
  lemma AdminWordPastPrefix(a: string, b: string, j: nat)
    ensures AdminWordAt(a + b, |a| + j) <==> AdminWordAt(b, j)
  {
    assert (a + b)[|a|..] == b;
    AdminWordOfSuffix(a + b, |a|, j);
  }

  /**
   * One path segment "/" + x (with no '/' in x) followed by `b`: an admin
   * word past its first character can only lie in `b`.
   */
  lemma SegmentThenRest(x: string, b: string, j: nat)
    requires '/' !in x
    requires 0 < j <= |"/" + x + b|
    ensures AdminWordAt("/" + x + b, j) ==> j >= |"/" + x| && AdminWordAt(b, j - |"/" + x|)
  {
    var s := "/" + x + b;
    assert forall t :: 0 < t < |"/" + x| ==> s[t] == x[t - 1];
    assert forall t :: 0 <= t < |x| ==> x[t] != '/';
    AdminWordStart(s, j);
    assert s == ("/" + x) + b;
    if j >= |"/" + x| {
      AdminWordPastPrefix("/" + x, b, j - |"/" + x|);
    }
  }

  /** A segment that is not an admin word, followed by a text without any. */
  lemma PieceWithoutWord(x: string, b: string)
    requires '/' !in x && !AdminWordAt("/" + x + b, 0) && NoAdminWord(b)
    ensures NoAdminWord("/" + x + b)
  {
    forall j | 0 < j <= |"/" + x + b| ensures !AdminWordAt("/" + x + b, j) {
      SegmentThenRest(x, b, j);
    }
  }

  /** "/" + x + b where b has no admin word: the only admin word possible is at 0. */
  lemma PieceAfterFirst(x: string, b: string, j: nat)
    requires '/' !in x && NoAdminWord(b) && 0 < j <= |"/" + x + b|
    ensures !AdminWordAt("/" + x + b, j)
  {
    SegmentThenRest(x, b, j);
  }

  /** `pre` + ("/" + x + b), admin word at |pre|, none in `b`: rule 1 starts at |pre|. */
  lemma AdminPieceAlone(pre: string, rest: string)
    requires AdminWordAt(rest, 0)
    requires forall j :: 0 < j <= |rest| ==> !AdminWordAt(rest, j)
    ensures LastAdminWord(pre + rest, |pre + rest|) == At(|pre|)
  {
    var s := pre + rest;
    AdminWordPastPrefix(pre, rest, 0);
    forall j | |pre| < j <= |s| ensures !AdminWordAt(s, j) {
      AdminWordPastPrefix(pre, rest, j - |pre|);
    }
  }

  lemma EmptyHasNoAdminWord()
    ensures NoAdminWord("")
  {
    forall j | 0 <= j <= 0 ensures !AdminWordAt("", j) {
    }
  }

  /** A last segment: "/" + x with no '/' in x and x not starting with 'w'. */
  lemma LastSegmentWithoutWord(x: string)
    requires '/' !in x && (x == [] || x[0] != 'w')
    ensures NoAdminWord("/" + x)
  {
    EmptyHasNoAdminWord();
    assert "/" + x + "" == "/" + x;
    AdminWordStart("/" + x, 0);
    assert x != [] ==> ("/" + x)[1] == x[0];
    PieceWithoutWord(x, "");
  }

  /** How the upload example is spelled out of its segments. */
  lemma UploadTailPieces()
    ensures "/" + "x.png" == "/x.png"
    ensures "/uploads/x.png" == "/" + "uploads" + "/x.png"
  {
  }

  lemma UploadTail()
    ensures NoAdminWord("/uploads/x.png")
  {
    UploadTailPieces();
    LastSegmentWithoutWord("x.png");
    AdminWordStart("/uploads/x.png", 0);
    PieceWithoutWord("uploads", "/x.png");
  }

  /**
   * pre + "/" + x + b, where "/" + x + b starts with an admin word and has no
   * other: rule 1 keeps "/" + x + b.
   */
  lemma CollapseAt(pre: string, x: string, b: string)
    requires '/' !in x && NoAdminWord(b) && AdminWordAt("/" + x + b, 0)
    requires '\n' !in pre + ("/" + x + b)
    ensures MultisiteRules(pre + ("/" + x + b)) == "/" + x + b
    ensures LastAdminWord(pre + ("/" + x + b), |pre + ("/" + x + b)|) == At(|pre|)
  {
    var rest := "/" + x + b;
    forall j | 0 < j <= |rest| ensures !AdminWordAt(rest, j) {
      PieceAfterFirst(x, b, j);
    }
    AdminPieceAlone(pre, rest);
    FirstLineOfLine(pre + rest);
  }

  /** The same, through rewriteMultisite, for a URI that does not end in 'n'. */
  lemma CollapseRewrites(pre: string, x: string, b: string)
    requires '/' !in x && NoAdminWord(b) && AdminWordAt("/" + x + b, 0)
    requires '\n' !in pre + ("/" + x + b)
    requires b != [] && b[|b| - 1] != 'n'
    ensures RewriteUri(pre + ("/" + x + b), true) == Continue("/" + x + b)
  {
    var uri := pre + ("/" + x + b);
    assert uri[|uri| - 1] == b[|b| - 1];
    NotEndingInAdmin(uri);
    CollapseAt(pre, x, b);
  }

  lemma UploadPieces()
    ensures "/" + "wp-content" + "/uploads/x.png" == "/wp-content/uploads/x.png"
    ensures "/site2" + "/wp-content/uploads/x.png" == "/site2/wp-content/uploads/x.png"
  {
  }

  lemma UploadCollapses()
    ensures RewriteUri("/site2/wp-content/uploads/x.png", true) == Continue("/wp-content/uploads/x.png")
  {
    UploadTail();
    UploadPieces();
    assert StartsAt("/wp-content/uploads/x.png", 0, "/wp-content");
    CollapseRewrites("/site2", "wp-content", "/uploads/x.png");
  }

  lemma ScriptCollapses()
    ensures RewriteUri("/site2/index.php", true) == Continue("/index.php")
  {
    ScriptRuleTwo();
    NotEndingInAdmin("/site2/index.php");
  }

  /** A URI whose last character is not 'n' does not end with /wp-admin. */
  lemma NotEndingInAdmin(uri: string)
    requires uri != [] && uri[|uri| - 1] != 'n'
    ensures RewriteUri(uri, true) == Continue(MultisiteRules(uri))
  {
  }

  lemma ScriptRuleTwo()
    ensures MultisiteRules("/site2/index.php") == "/index.php"
  {
    ScriptPathWithoutWord();
    ScriptPieces();
    var dir, script := "/site2", "index.php";
    assert '\n' !in dir + "/" + script && EndsWith(script, ".php");
    RuleTwoKeepsScript(dir, script);
  }

  /** How the script example is spelled out of its segments. */
  lemma ScriptPieces()
    ensures "/" + "index.php" == "/index.php"
    ensures "/site2/index.php" == "/" + "site2" + "/index.php"
    ensures "/site2" + "/" + "index.php" == "/site2/index.php"
  {
  }

  lemma ScriptPathWithoutWord()
    ensures NoAdminWord("/site2/index.php")
  {
    ScriptPieces();
    LastSegmentWithoutWord("index.php");
    AdminWordStart("/site2/index.php", 0);
    PieceWithoutWord("site2", "/index.php");
  }

  lemma AdminWordBeforeScript()
    ensures RewriteUri("/site2/wp-admin/index.php", true) == Continue("/wp-admin/index.php")
  {
    ScriptPieces();
    AdminScriptPieces();
    LastSegmentWithoutWord("index.php");
    assert StartsAt("/wp-admin/index.php", 0, "/wp-admin");
    CollapseRewrites("/site2", "wp-admin", "/index.php");
  }

  lemma AdminScriptPieces()
    ensures "/" + "wp-admin" + "/index.php" == "/wp-admin/index.php"
    ensures "/site2" + "/wp-admin/index.php" == "/site2/wp-admin/index.php"
  {
  }

  lemma BoundaryPieces()
    ensures "/" + "c.js" == "/c.js"
    ensures "/" + "wp-includesx" + "/c.js" == "/wp-includesx/c.js"
    ensures "/a/wp-content" + "/wp-includesx/c.js" == "/a/wp-content/wp-includesx/c.js"
  {
  }

  /** Rule 1 keeps from the LAST admin word on, and needs no segment boundary after it. */
  lemma LastWordAndNoBoundary()
    ensures RewriteUri("/a/wp-content/wp-includesx/c.js", true) == Continue("/wp-includesx/c.js")
  {
    BoundaryPieces();
    LastSegmentWithoutWord("c.js");
    assert StartsAt("/wp-includesx/c.js", 0, "/wp-includes");
    CollapseRewrites("/a/wp-content", "wp-includesx", "/c.js");
  }
}
