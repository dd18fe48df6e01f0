# LocalValetDriver in Dafny

A Dafny model of `LocalValetDriver`. This is a Laravel Valet driver for a WordPress site. For each request it:

- decides whether it serves the site: `wp-config.php` must be in the project root or in `public/`;
- records the document root it found, and whether the site is a multisite;
- rewrites the request URI the way a multisite `.htaccess` would;
- either returns a static file path, sends a missing upload to a remote host named in `.uploads-proxy`, or hands the request to its parent driver.

The project has five modules, one per file:

- `PhpStrings` (`php_strings.dfy`) holds the PHP string functions the driver uses:
  - `substr` with a negative start;
  - `strpos`/`strrpos`;
  - `rtrim`;
  - ASCII case folding;
  - PHP truthiness of a string.
- `Patterns` (`patterns.dfy`) holds the two `preg_match` patterns of `checkMultisite`. Each is an exact string predicate with PCRE's meaning of `^`, `$`, `\s`, `\1` and flags `m` and `i`. Each predicate is proved equal to a declarative reading.
- `Rewrite` (`rewrite.dfy`) holds `forceTrailingSlash` and `rewriteMultisite`. The `header` + `die` redirect is the `Redirect` outcome.
- `Paths` (`paths.dfy`) holds `pathinfo(..., PATHINFO_DIRNAME)` (zend_dirname) and `shouldProxy`.
- `Valet` (`driver.dfy`) holds the class `LocalValetDriver`:
  - the fields `publicDir`, `multisite` and `remoteProxy`;
  - `Serves` as a loop over the candidates `""` and `"public"`;
  - `CheckPublicDir` and `CheckMultisite`, which update the fields;
  - the query functions `RealSitePath`, `IsStaticFile`, `FrontControllerPath`, `HasUploadProxy`, `GetProxyUrl` and `ServeStaticFile`.

`Valet` also holds four scenarios:

- a missing upload of a site in `public/` that is sent to the remote host;
- the same site with the marker only in `public/`;
- the same upload present on disk;
- a missing upload of the sub-site `site2` of a multisite at the project root: the rewritten URI is looked up and the raw URI is sent to the remote host.

The filesystem is a `map` from path to `File(contents)` or `Directory`:

- `file_exists` is membership;
- the parent's `isActualFile` is "present and a file";
- `file_get_contents` of a missing path or a directory is `""`.

`RealSitePath`, `HasUploadProxy` and `GetProxyUrl` are one-line delegations. Their contracts are those of `DocumentRoot` and `ProxyUrl`, and `ServeStaticFile` states them in terms of the marker path.

`StaticLookup`, `FrontController` and `Serving` are the results of the driver's own `isStaticFile`, `frontControllerPath` and `serveStaticFile`. In each, one variant stands for the call to the parent and carries the arguments the parent receives.

## Model

| member | source | states |
|---|---|---|
| `PhpStrings.LastChars` | LocalValetDriver.php:133 | `substr($s, -n)` has min(\|s\|, n) characters and is a suffix of `s` (the whole of `s` when it is shorter) |
| `PhpStrings.RTrim` | LocalValetDriver.php:202-203 | `rtrim` gives a prefix that does not end in a trimmed character; everything it dropped is a trimmed character |
| `PhpStrings.Lower` | LocalValetDriver.php:78-79 | flag `i` folds each character by itself, ASCII letters only, keeping the length |
| `PhpStrings.FirstLine` | LocalValetDriver.php:114 | the text before the first '\n': a prefix without '\n', followed by '\n' or the end |
| `PhpStrings.Contains` | LocalValetDriver.php:150 | `strpos($s, $needle) !== false`: the needle starts at some index of the text; `ContainsExtends` and `ContainsInSuffix` carry it to longer texts |
| `PhpStrings.Truthy` | LocalValetDriver.php:67 | the `if ($this->public_dir)` test: every string but "" and "0"; `DocumentRoot` appends a directory exactly when it holds |
| `PhpStrings.LowerKeeps` | LocalValetDriver.php:78-79 | folding leaves a text without upper-case ASCII letters unchanged |
| `PhpStrings.LowerSplit` | LocalValetDriver.php:78-79 | folding distributes over concatenation |
| `PhpStrings.LastSlash` | LocalValetDriver.php:117 | the last '/' of a text (no '/' after it), or none when the text has no '/' |
| `Patterns.DefineAt` | LocalValetDriver.php:78 | the scanner for `define\(\s*('\|")MULTISITE\1\s*,\s*true\s*\)` at one position; its meaning is `DefineAtIff` |
| `Patterns.DeclaresMultisite` | LocalValetDriver.php:78 | the first `preg_match` of checkMultisite; its meaning is `DeclaresMultisiteIff` |
| `Patterns.MultisiteDefineDeclares` | LocalValetDriver.php:78 | the line `define('MULTISITE', true);` is matched, with upper-case `MULTISITE` folded by flag i |
| `Patterns.EnablesMultisite` | LocalValetDriver.php:79 | the second `preg_match` of checkMultisite; its meaning is `EnablesMultisiteIff` |
| `Patterns.SkipSpace` | LocalValetDriver.php:78 | `\s*` consumes a run of PCRE whitespace; what remains does not start with whitespace |
| `Patterns.DefineAtIff` | LocalValetDriver.php:78 | the scanner matches a text exactly when it is `define(`, spaces, a quote, `multisite`, the same quote, spaces, `,`, spaces, `true`, spaces, `)` and anything after |
| `Patterns.QuotesMustAgree` | LocalValetDriver.php:78 | the back-reference `\1`: a key opened with one quote and closed with the other is not matched |
| `Patterns.DeclaresMultisiteIff` | LocalValetDriver.php:78 | wp-config.php declares a multisite exactly when, at the start of some line, its lower-cased rest has that define shape |
| `Patterns.MatchesLineIff` | LocalValetDriver.php:79 | for a non-empty `w` without '\n', `^w$` under flag m matches exactly when `w` is one of the lines split at '\n' |
| `Patterns.NoMatchAfterFinalNewline` | LocalValetDriver.php:79 | `^` under flag m does not match after a '\n' that ends the text: `""` is a line of `"a\n"`, yet `^$` does not match it |
| `Patterns.EnablesMultisiteIff` | LocalValetDriver.php:79 | .env enables a multisite exactly when one of its lines is `WP_MULTISITE=true` up to ASCII case |
| `Rewrite.NeedsTrailingSlash` | LocalValetDriver.php:133 | forceTrailingSlash's test holds exactly when the URI ends with `/wp-admin` |
| `Rewrite.LastAdminWord` | LocalValetDriver.php:114 | the greedy `(.*)?` of rule 1 picks the last `/wp-content`, `/wp-admin` or `/wp-includes` of the line, or none |
| `Rewrite.RewriteUri` | LocalValetDriver.php:109-123 | a redirect to `uri + "/"` exactly when the URI ends with `/wp-admin`, whatever the flag; without the flag the URI is unchanged |
| `Rewrite.AdminRootRedirects` | LocalValetDriver.php:131-137 | `/wp-admin` redirects to `/wp-admin/` whatever the multisite flag |
| `Rewrite.MultisiteRules` | LocalValetDriver.php:113-121 | the two multisite rules, first match wins; their meaning is `RuleOneCollapses`, `RuleTwoKeepsScript` and `NoRuleKeeps`, and they are idempotent (`MultisiteRulesIdempotent`) |
| `Rewrite.RuleTwoMatches` | LocalValetDriver.php:117 | when rule 2 matches: before `$` there is no '\n', the text ends in `.php` and has a '/'; used by `RuleTwoKeepsScript` |
| `Rewrite.RuleOneCollapses` | LocalValetDriver.php:114-116 | without '\n', rule 1 keeps the suffix from the last admin word on |
| `Rewrite.RuleTwoKeepsScript` | LocalValetDriver.php:117-119 | without '\n' and with no admin word, a URI whose last segment ends in `.php` becomes `"/" + last segment` |
| `Rewrite.NoRuleKeeps` | LocalValetDriver.php:113-122 | without '\n', with no admin word and no `.php` ending after a '/', the URI is unchanged |
| `Rewrite.MultisiteRulesIsSuffix` | LocalValetDriver.php:114-120 | without '\n', the multisite rules give a suffix of the URI |
| `Rewrite.RewriteIsSuffix` | LocalValetDriver.php:109-123 | without '\n', rewriteMultisite gives a suffix of the URI |
| `Rewrite.MultisiteRulesIdempotent` | LocalValetDriver.php:113-121 | applying the multisite rules to their own result changes nothing, for every URI |
| `Rewrite.RewriteIdempotent` | LocalValetDriver.php:109-123 | rewriteMultisite applied to its own output gives the same output, unless that output ends with `/wp-admin` |
| `Rewrite.RewriteNeverEndsInAdmin` | LocalValetDriver.php:109-123 | without '\n', no output of rewriteMultisite ends with `/wp-admin` |
| `Rewrite.RewriteIdempotentWithoutNewline` | LocalValetDriver.php:109-123 | without '\n', rewriteMultisite is idempotent |
| `Rewrite.NewlineBreaksIdempotence` | LocalValetDriver.php:114-116 | `"/x/wp-admin\nz"` rewrites to `/wp-admin`, which then redirects: idempotence needs a URI without '\n' |
| `Rewrite.UploadCollapses` | LocalValetDriver.php:114-116 | `/site2/wp-content/uploads/x.png` becomes `/wp-content/uploads/x.png` |
| `Rewrite.ScriptCollapses` | LocalValetDriver.php:117-119 | `/site2/index.php` becomes `/index.php` |
| `Rewrite.AdminWordBeforeScript` | LocalValetDriver.php:114-119 | rule 1 wins over rule 2: `/site2/wp-admin/index.php` becomes `/wp-admin/index.php` |
| `Rewrite.LastWordAndNoBoundary` | LocalValetDriver.php:114 | rule 1 keeps the last admin word, and `/wp-includesx` counts as one |
| `Paths.Dirname` | LocalValetDriver.php:148 | the dirname is "" only for "", "." when there is no '/', otherwise "/" or a proper prefix of the path not ending in '/' |
| `Paths.DirnameOfChild` | LocalValetDriver.php:148 | the dirname of `dir + "/" + name` is `dir` |
| `Paths.DirnameOfTopLevel` | LocalValetDriver.php:148 | the dirname of `"/" + name` is "/" |
| `Paths.DirnameIgnoresTrailingSlash` | LocalValetDriver.php:148 | a trailing '/' does not change the dirname of a non-empty path |
| `Paths.ShouldProxy` | LocalValetDriver.php:146-151 | shouldProxy, as a substring test on the dirname; its meaning is `ShouldProxyOfChild` and `ShouldProxyMentionsUploads` |
| `Paths.ShouldProxyMentionsUploads` | LocalValetDriver.php:146-151 | a URI that shouldProxy accepts contains `wp-content/uploads` |
| `Paths.ShouldProxyOfChild` | LocalValetDriver.php:146-151 | for `dir + "/" + name`, shouldProxy holds exactly when `dir` contains `wp-content/uploads` |
| `Paths.UploadIsProxied` | LocalValetDriver.php:146-151 | `/wp-content/uploads/2021/pic.jpg` is proxy-eligible |
| `Paths.UploadFileIsProxied` | LocalValetDriver.php:146-151 | for every prefix `pre` and every file name, `pre + "/wp-content/uploads/" + name` is proxy-eligible |
| `Paths.SiteUploadsAreProxied` | LocalValetDriver.php:146-151 | `/wp-content/uploads/x.png` and `/site2/wp-content/uploads/x.png` are both proxy-eligible |
| `Paths.ThemeIsNotProxied` | LocalValetDriver.php:146-151 | `/wp-content/themes/x.css` is not |
| `Paths.UploadsDirectoryIsNotProxied` | LocalValetDriver.php:146-151 | `/wp-content/uploads` itself is not: its dirname is `/wp-content` |
| `Paths.EmbeddedUploadsIsProxied` | LocalValetDriver.php:146-151 | the test is a substring test: `/old-wp-content/uploads-2/a.jpg` is proxy-eligible |
| `Valet.FileExists` | LocalValetDriver.php:52 | `file_exists`, as used here and at :79, :178 and :191: the path is in the map, whether it is a file or a directory; `IsActualFile` is the stricter test |
| `Valet.ConfigPath` | LocalValetDriver.php:51 | `$wp_config_path`: the document root of the candidate followed by `/wp-config.php`; `ConfigPathsOfCandidates` spells out both candidates |
| `Valet.IsActualFile` | LocalValetDriver.php:97 | the parent's `isActualFile`: the path is present and is a file, not a directory |
| `Valet.FileGetContents` | LocalValetDriver.php:78-79 | `file_get_contents`: the file's contents, or "" for a missing path or a directory |
| `Valet.MultisiteConfigured` | LocalValetDriver.php:77-80 | checkMultisite's condition: the config declares a multisite, or `sitePath/.env` exists and enables one; `CheckMultisite` sets the flag exactly then |
| `Valet.LocalValetDriver.RealSitePath` | LocalValetDriver.php:65-71 | realSitePath under the current public_dir; its contract is `DocumentRoot`'s |
| `Valet.LocalValetDriver.HasUploadProxy` | LocalValetDriver.php:189-192 | the marker `.uploads-proxy` exists directly under the given site path; `ServeStaticFile` states it as `sitePath + "/.uploads-proxy"` |
| `Valet.LocalValetDriver.GetProxyUrl` | LocalValetDriver.php:200-204 | `ProxyUrl` of the marker's contents under the given site path |
| `Valet.DocumentRoot` | LocalValetDriver.php:65-71 | realSitePath extends the site path, appending `"/" + public_dir` exactly when public_dir is truthy ("" and "0" are not) |
| `Valet.DocumentRootOfCandidates` | LocalValetDriver.php:65-71 | the root candidate gives the site path, `public` gives `sitePath + "/public"` |
| `Valet.FirstServing` | LocalValetDriver.php:38-46 | the first candidate whose wp-config.php exists: it exists there and at no earlier candidate, or at none |
| `Valet.ServesIff` | LocalValetDriver.php:38-57 | a site is served exactly when `sitePath/wp-config.php` or `sitePath/public/wp-config.php` exists; the root wins exactly when its file exists |
| `Valet.LocalValetDriver.constructor` | LocalValetDriver.php:13-17 | public_dir starts as "" and multisite as false |
| `Valet.LocalValetDriver.Serves` | LocalValetDriver.php:38-46 | returns whether a candidate won; public_dir is the winner, or `public` when none won; multisite is set when the winner's config or the .env says so, and otherwise kept |
| `Valet.LocalValetDriver.CheckPublicDir` | LocalValetDriver.php:48-57 | public_dir becomes the candidate before the test; the result says whether its wp-config.php exists; only then can multisite be set |
| `Valet.LocalValetDriver.CheckMultisite` | LocalValetDriver.php:73-83 | multisite becomes true when either pattern matches and is never cleared |
| `Valet.LocalValetDriver.IsStaticFile` | LocalValetDriver.php:93-101 | the trailing-slash redirect first; then the document-root path of the rewritten URI is returned exactly when that URI is proxy-eligible and no file is there; everything else goes to the parent with the document root and the rewritten URI |
| `Valet.LocalValetDriver.FrontControllerPath` | LocalValetDriver.php:161-166 | the trailing-slash redirect first; otherwise the parent gets the document root and the rewritten URI |
| `Valet.LocalValetDriver.ServeStaticFile` | LocalValetDriver.php:176-192 | a redirect to the proxy URL + raw URI exactly when the raw URI is proxy-eligible, nothing exists at the static path, and `sitePath/.uploads-proxy` exists; otherwise the parent serves |
| `Valet.ProxyUrl` | LocalValetDriver.php:200-204 | getProxyUrl gives a prefix of the marker's contents that does not end in whitespace, having dropped only '/' and whitespace |
| `Valet.ProxyUrlWithoutSpace` | LocalValetDriver.php:202-203 | the whitespace trim changes nothing exactly when the rtrim of '/' is empty or does not end in whitespace, and the URL then does not end in '/' |
| `Valet.ProxyUrlOfSlashSpaceSlash` | LocalValetDriver.php:202-203 | `"a/ /"` gives `"a/"`: whitespace between two '/' leaves the first '/' in the URL |
| `Valet.ProxyUrlOfSlashedHost` | LocalValetDriver.php:202-203 | `https://cdn.example.com/` gives `https://cdn.example.com` |
| `PhpStrings.RTrimDropsRun` | LocalValetDriver.php:203 | rtrim drops a whole run of trimmed characters at the end |
| `Valet.ProxyUrlKeepsSlashBeforeSpace` | LocalValetDriver.php:202-203 | for any `u` and any non-empty whitespace run `w`, the URL of `u + "/" + w` is `u + "/"`: '/' is trimmed first, so a '/' followed only by whitespace stays |
| `Valet.ProxyUrlKeepsSlashBeforeNewline` | LocalValetDriver.php:202-203 | `"https://x/\n"` gives `https://x/`: the '/' is trimmed before the newline is |
| `Valet.ProxyCandidateIsUpload` | LocalValetDriver.php:93-99 | without '\n', a path returned by isStaticFile is the document root followed by a suffix of the URI, and the URI contains `wp-content/uploads` |
| `Valet.LocalFileGoesToParent` | LocalValetDriver.php:97-100 | a file on disk at the rewritten path always goes to the parent |
| `Valet.SingleSiteLookup` | LocalValetDriver.php:93-100 | on a single site isStaticFile tests the URI as given |
| `Valet.SingleSitePath` | LocalValetDriver.php:93-98 | on a single site a returned path is the document root followed by the URI |
| `Valet.ShortConfigIsSingleSite` | LocalValetDriver.php:78 | a wp-config.php shorter than `define(` declares no multisite |
| `Valet.MissingUploadIsProxied` | LocalValetDriver.php:176-183 | site in `public/`, marker in the project root, upload missing: isStaticFile returns the local path and serveStaticFile redirects to `https://cdn.example.com/wp-content/uploads/2021/pic.jpg` |
| `Valet.MarkerInPublicIsNotRead` | LocalValetDriver.php:189-192 | the same site with the marker only in `public/`: the parent serves |
| `Valet.LocalUploadIsNotProxied` | LocalValetDriver.php:93-100 | the same site with the upload on disk: isStaticFile hands it to the parent |
| `Valet.NetworkIsServedFromRoot` | LocalValetDriver.php:38-83 | a project whose root wp-config.php holds `define('MULTISITE', true);` is served from the root and is a multisite |
| `Valet.NetworkLookup` | LocalValetDriver.php:93-98 | on that multisite, isStaticFile rewrites `/site2/wp-content/uploads/x.png` and returns the root path of `/wp-content/uploads/x.png` |
| `Valet.NetworkServing` | LocalValetDriver.php:176-183 | serving that path redirects to the proxy URL followed by the raw `/site2/...` URI |
| `Valet.MultisiteUploadIsProxied` | LocalValetDriver.php:176-183 | the multisite request end to end: served, the rewritten path looked up, then a redirect to `https://cdn.example.com/site2/wp-content/uploads/x.png` |

## Behaviour worth knowing

- **Marker location.** `hasUploadProxy` and `getProxyUrl` read `.uploads-proxy` only under the raw `$sitePath` they are given. `serveStaticFile` passes on its own raw `$sitePath`, never the document root. A marker that exists only in `public/` is therefore never read (`MarkerInPublicIsNotRead`).
- **The multisite flag.** `checkMultisite` sets the flag and never clears it, so a driver object that once saw a multisite keeps the flag (`CheckMultisite`, `Serves`).
- **When isStaticFile returns a path.** isStaticFile returns its own path exactly when the rewritten URI is proxy-eligible and no file is at that path. Everything else goes to the parent (`IsStaticFile`).
- **Trimming the proxy URL.** getProxyUrl trims only trailing characters: first '/', then whitespace. A '/' followed only by whitespace therefore stays (`ProxyUrl`, `ProxyUrlKeepsSlashBeforeSpace`).
- **The URI serveStaticFile tests.** It tests and appends the raw URI it receives, not a rewritten one (`ServeStaticFile`).

Four PCRE behaviours are kept exactly rather than approximated:

- `$` without flag m also matches before a final '\n';
- `.` never matches '\n';
- `\s` includes '\n', so the define pattern may run over several lines;
- `^` under flag m does not match after a final '\n'.

As a result, the suffix properties (`MultisiteRulesIsSuffix`, `RewriteIsSuffix`, `RewriteNeverEndsInAdmin`), the rule lemmas and the unconditional `RewriteIdempotentWithoutNewline` need a URI without '\n'. `MultisiteRulesIdempotent` holds for every URI. So does `RewriteIdempotent`, whenever its output does not end in `/wp-admin`.

## Left out

- Output and process control: `header(...)` and `die` are the outcomes `Redirect`, `SlashRedirect`, `ControllerRedirect` and `ProxyRedirect`. No HTTP response or process exit is modelled. PHP's `header()` refuses a header line that holds '\n' or '\r' before its trailing whitespace: it emits a warning and sends nothing. So a `Redirect` of a URI with a decoded newline, or a `ProxyRedirect` whose location holds one, means that `header` was called, not that a redirect was sent.
- The parent driver: `parent::isStaticFile`, `parent::frontControllerPath` and `parent::serveStaticFile` are not part of this model. Their calls are the outcomes `ParentStatic`, `ParentController` and `ParentServe`, which carry the arguments passed.
- The host around the driver: how requests reach `serves`, `isStaticFile` and `serveStaticFile`, and in what order, is not part of this model. The four scenario methods call them in the order a static request takes.
- Filesystem details: the filesystem is a map passed to each operation. The model has no permissions, I/O errors, symbolic links or path normalisation.
- PCRE limits: a pattern that hits the backtracking limit makes `preg_match` return false. That case is not modelled.
- Non-ASCII text and Windows paths:
  - case folding is ASCII only;
  - Windows separators and drive letters are not modelled;
  - `Dirname` follows zend_dirname for '/' as the only separator.
- NUL bytes: pathinfo truncates its dirname at the first NUL byte, and that truncation is not modelled.
- Unused parameters: `serves` ignores `$siteName` and `$uri`, and so does the model.
- `Rewrite.RewriteIsSuffix`: stated only for URIs without '\n'. With a '\n', rule 1 keeps part of the first line only, and rule 2 drops a final '\n'.
- `Rewrite.RewriteIdempotentWithoutNewline`: stated only for URIs without '\n'. `NewlineBreaksIdempotence` shows the input that breaks it otherwise.
- `Patterns.MatchesLineIff`: stated for a non-empty `w`. The empty line after a final '\n' is one of the split lines, but `^$` does not match there (`NoMatchAfterFinalNewline`). Both patterns of checkMultisite use a non-empty line.
- `Valet.ProxyUrlWithoutSpace`: "no trailing whitespace in the marker means no trailing '/' in the URL" does not hold in general: `"a/ /"` gives `"a/"` (`ProxyUrlOfSlashSpaceSlash`). The lemma therefore promises no trailing '/' only when the rtrim of '/' does not end in whitespace.
