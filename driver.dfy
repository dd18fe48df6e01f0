/**
 * LocalValetDriver: the per-request decisions of a Valet driver for a
 * WordPress site that may live in a `public` sub-directory, may be a
 * multisite, and may send missing uploads to a remote host.
 *
 * The filesystem is a map from path to entry; it is passed to each
 * operation, since every decision re-reads it. The parent driver's
 * isStaticFile, frontControllerPath and serveStaticFile are not modelled:
 * a decision that hands over to them is an outcome carrying the arguments
 * the parent receives. A `header('Location: …')` is an outcome carrying the
 * location.
 */
module Valet {
  import opened PhpStrings
  import opened Patterns
  import opened Rewrite
  import opened Paths

  /** What a path names on disk. */
  datatype Entry = File(contents: string) | Directory

  type FileSystem = map<string, Entry>

  /** file_exists: true for files and directories alike. */
  predicate FileExists(fs: FileSystem, path: string) {
    path in fs
  }

  /** The parent driver's isActualFile: the path exists and is not a directory. */
  predicate IsActualFile(fs: FileSystem, path: string) {
    path in fs && fs[path].File?
  }

  /**
   * file_get_contents. On a missing path or a directory it yields false or
   * "", and preg_match and rtrim read false as "".
   */
  function FileGetContents(fs: FileSystem, path: string): string {
    if IsActualFile(fs, path) then fs[path].contents else ""
  }

  /** The document-root candidates serves tries, in order. */
  const Candidates: seq<string> := ["", "public"]

  const ConfigName: string := "/wp-config.php"

  const EnvName: string := "/.env"

  /**
   * realSitePath for a given public_dir: "/" + public_dir is appended when
   * public_dir is truthy in PHP's sense, so "" and "0" append nothing.
   */
  function DocumentRoot(sitePath: string, publicDir: string): (root: string)
    ensures sitePath <= root
    ensures root == sitePath <==> !Truthy(publicDir)
    ensures Truthy(publicDir) ==> root[|sitePath|..] == "/" + publicDir
  {
    if Truthy(publicDir) then sitePath + "/" + publicDir else sitePath
  }

  /** The wp-config.php that checkPublicDir looks for under a candidate. */
  function ConfigPath(sitePath: string, publicDir: string): string {
    DocumentRoot(sitePath, publicDir) + ConfigName
  }

  /**
   * checkMultisite's condition: wp-config.php declares MULTISITE true, or
   * the .env next to the project root exists and enables WP_MULTISITE.
   */
  predicate MultisiteConfigured(fs: FileSystem, sitePath: string, configPath: string) {
    DeclaresMultisite(FileGetContents(fs, configPath))
    || (FileExists(fs, sitePath + EnvName) && EnablesMultisite(FileGetContents(fs, sitePath + EnvName)))
  }

  /** The first of `candidates` whose wp-config.php exists. */
  function FirstServing(fs: FileSystem, sitePath: string, candidates: seq<string>): (p: Position)
    ensures p.At? ==> p.index < |candidates| && FileExists(fs, ConfigPath(sitePath, candidates[p.index]))
    ensures p.At? ==> forall j :: 0 <= j < p.index ==> !FileExists(fs, ConfigPath(sitePath, candidates[j]))
    ensures p.NotFound? ==> forall j :: 0 <= j < |candidates| ==> !FileExists(fs, ConfigPath(sitePath, candidates[j]))
    decreases |candidates|
  {
    if candidates == [] then NotFound
    else if FileExists(fs, ConfigPath(sitePath, candidates[0])) then At(0)
    else
      match FirstServing(fs, sitePath, candidates[1..])
      case NotFound => NotFound
      case At(i) => At(i + 1)
  }

  /**
   * getProxyUrl on the marker's contents: rtrim '/' first, then rtrim
   * whitespace. The result is a prefix of the contents that does not end in
   * whitespace, and only '/' and whitespace were dropped.
   */
  function ProxyUrl(contents: string): (url: string)
    ensures url <= contents
    ensures url == [] || url[|url| - 1] !in PhpTrimCharacters
    ensures forall i :: |url| <= i < |contents| ==> contents[i] == '/' || contents[i] in PhpTrimCharacters
  {
    RTrim(RTrim(contents, Slash), PhpTrimCharacters)
  }

  /** What isStaticFile decides. */
  datatype StaticLookup =
    | SlashRedirect(location: string)                                  // forceTrailingSlash: header + die
    | ProxyCandidate(path: string)                                     // returned as the static file path
    | ParentStatic(sitePath: string, siteName: string, uri: string)   // parent::isStaticFile(...)

  /** What frontControllerPath decides. */
  datatype FrontController =
    | ControllerRedirect(location: string)                                 // forceTrailingSlash: header + die
    | ParentController(sitePath: string, siteName: string, uri: string)   // parent::frontControllerPath(...)

  /** What serveStaticFile does. */
  datatype Serving =
    | ProxyRedirect(location: string)                                          // header('Location: ...')
    | ParentServe(staticFilePath: string, sitePath: string, siteName: string, uri: string)

  class LocalValetDriver {
    /** The public web directory under the project root, or "". */
    var publicDir: string
    /** Set once a site is detected as a multisite; never cleared. */
    var multisite: bool
    /** The marker file, under the project root, that holds the proxy URL. */
    const remoteProxy: string := ".uploads-proxy"

    constructor()
      ensures publicDir == "" && !multisite
    {
      publicDir := "";
      multisite := false;
    }

    /** realSitePath: the document root under the current public_dir. */
    function RealSitePath(sitePath: string): string
      reads this
    {
      DocumentRoot(sitePath, publicDir)
    }

    /** serves: try each candidate until one holds wp-config.php. */
    method Serves(fs: FileSystem, sitePath: string, siteName: string, uri: string) returns (served: bool)
      modifies this
      ensures served <==> FirstServing(fs, sitePath, Candidates).At?
      ensures served ==> publicDir == Candidates[FirstServing(fs, sitePath, Candidates).index]
      ensures !served ==> publicDir == Candidates[|Candidates| - 1]
      ensures multisite == (old(multisite) || (served && MultisiteConfigured(fs, sitePath, ConfigPath(sitePath, publicDir))))
    {
      var i := 0;
      while i < |Candidates|
        invariant 0 <= i <= |Candidates|
        invariant forall j :: 0 <= j < i ==> !FileExists(fs, ConfigPath(sitePath, Candidates[j]))
        invariant i > 0 ==> publicDir == Candidates[i - 1]
        invariant multisite == old(multisite)
      {
        served := CheckPublicDir(fs, sitePath, Candidates[i]);
        if served {
          FirstServingIs(fs, sitePath, Candidates, i);
          return;
        }
        i := i + 1;
      }
      served := false;
    }

    /** checkPublicDir: record the candidate, then look for its wp-config.php. */
    method CheckPublicDir(fs: FileSystem, sitePath: string, dir: string) returns (found: bool)
      modifies this
      ensures publicDir == dir
      ensures found <==> FileExists(fs, ConfigPath(sitePath, dir))
      ensures multisite == (old(multisite) || (found && MultisiteConfigured(fs, sitePath, ConfigPath(sitePath, dir))))
    {
      publicDir := dir;
      var configPath := RealSitePath(sitePath) + ConfigName;
      if FileExists(fs, configPath) {
        CheckMultisite(fs, sitePath, configPath);
        return true;
      }
      return false;
    }

    /** checkMultisite: set the flag when either pattern matches; never clear it. */
    method CheckMultisite(fs: FileSystem, sitePath: string, configPath: string)
      modifies this`multisite
      ensures multisite == (old(multisite) || MultisiteConfigured(fs, sitePath, configPath))
    {
      var envPath := sitePath + EnvName;
      if DeclaresMultisite(FileGetContents(fs, configPath))
         || (FileExists(fs, envPath) && EnablesMultisite(FileGetContents(fs, envPath)))
      {
        multisite := true;
      }
    }

    /**
     * isStaticFile: rewrite the URI, then return the local path of a
     * proxy-eligible upload that is not on disk; hand everything else to the
     * parent, under the document root and with the rewritten URI.
     */
    function IsStaticFile(fs: FileSystem, sitePath: string, siteName: string, uri: string): (r: StaticLookup)
      reads this
      ensures r.SlashRedirect? <==> EndsWith(uri, "/wp-admin")
      ensures r.SlashRedirect? ==> r.location == uri + "/"
      ensures r.ProxyCandidate? <==>
        RewriteUri(uri, multisite).Continue? && ShouldProxy(RewriteUri(uri, multisite).uri)
        && !IsActualFile(fs, DocumentRoot(sitePath, publicDir) + RewriteUri(uri, multisite).uri)
      ensures r.ProxyCandidate? ==> r.path == DocumentRoot(sitePath, publicDir) + RewriteUri(uri, multisite).uri
      ensures r.ParentStatic? ==>
        r == ParentStatic(DocumentRoot(sitePath, publicDir), siteName, RewriteUri(uri, multisite).uri)
    {
      match RewriteUri(uri, multisite)
      case Redirect(location) => SlashRedirect(location)
      case Continue(rewritten) =>
        var staticFilePath := RealSitePath(sitePath) + rewritten;
        if ShouldProxy(rewritten) && !IsActualFile(fs, staticFilePath) then ProxyCandidate(staticFilePath)
        else ParentStatic(RealSitePath(sitePath), siteName, rewritten)
    }

    /** frontControllerPath: rewrite the URI and hand it to the parent under the document root. */
    function FrontControllerPath(sitePath: string, siteName: string, uri: string): (r: FrontController)
      reads this
      ensures r.ControllerRedirect? <==> EndsWith(uri, "/wp-admin")
      ensures r.ControllerRedirect? ==> r.location == uri + "/"
      ensures r.ParentController? ==>
        r == ParentController(DocumentRoot(sitePath, publicDir), siteName, RewriteUri(uri, multisite).uri)
    {
      match RewriteUri(uri, multisite)
      case Redirect(location) => ControllerRedirect(location)
      case Continue(rewritten) => ParentController(RealSitePath(sitePath), siteName, rewritten)
    }

    /** hasUploadProxy: the marker exists under the project root given. */
    predicate HasUploadProxy(fs: FileSystem, sitePath: string) {
      FileExists(fs, sitePath + "/" + remoteProxy)
    }

    /** getProxyUrl: the marker's contents, trimmed. */
    function GetProxyUrl(fs: FileSystem, sitePath: string): string {
      ProxyUrl(FileGetContents(fs, sitePath + "/" + remoteProxy))
    }

    /**
     * serveStaticFile: redirect to the proxy when the raw URI is
     * proxy-eligible, nothing exists at the static path and the project root
     * has the marker; otherwise the parent serves the file.
     */
    function ServeStaticFile(fs: FileSystem, staticFilePath: string, sitePath: string, siteName: string, uri: string): (r: Serving)
      ensures r.ProxyRedirect? <==>
        ShouldProxy(uri) && !FileExists(fs, staticFilePath) && FileExists(fs, sitePath + "/.uploads-proxy")
      ensures r.ProxyRedirect? ==>
        r.location == ProxyUrl(FileGetContents(fs, sitePath + "/.uploads-proxy")) + uri
      ensures r.ParentServe? ==> r == ParentServe(staticFilePath, sitePath, siteName, uri)
    {
      assert sitePath + "/" + remoteProxy == sitePath + "/.uploads-proxy";
      if ShouldProxy(uri) && !FileExists(fs, staticFilePath) && HasUploadProxy(fs, sitePath) then
        ProxyRedirect(GetProxyUrl(fs, sitePath) + uri)
      else
        ParentServe(staticFilePath, sitePath, siteName, uri)
    }
  }

  // ---------------------------------------------------------------------
  // Classification.
  // ---------------------------------------------------------------------

  /** The candidate at `i` wins when its config exists and no earlier one does. */
  lemma FirstServingIs(fs: FileSystem, sitePath: string, candidates: seq<string>, i: nat)
    requires i < |candidates| && FileExists(fs, ConfigPath(sitePath, candidates[i]))
    requires forall j :: 0 <= j < i ==> !FileExists(fs, ConfigPath(sitePath, candidates[j]))
    ensures FirstServing(fs, sitePath, candidates) == At(i)
  {
  }

  /**
   * serves accepts exactly the sites with sitePath/wp-config.php or
   * sitePath/public/wp-config.php, and the root wins when both exist.
   */
  lemma ServesIff(fs: FileSystem, sitePath: string)
    ensures FirstServing(fs, sitePath, Candidates).At? <==>
      FileExists(fs, sitePath + "/wp-config.php") || FileExists(fs, sitePath + "/public/wp-config.php")
    ensures FirstServing(fs, sitePath, Candidates) == At(0) <==> FileExists(fs, sitePath + "/wp-config.php")
  {
    ConfigPathsOfCandidates(sitePath);
    FirstOfTwo(fs, sitePath, Candidates);
  }

  /** FirstServing over two candidates. */
  lemma FirstOfTwo(fs: FileSystem, sitePath: string, c: seq<string>)
    requires |c| == 2
    ensures FirstServing(fs, sitePath, c).At? <==>
      FileExists(fs, ConfigPath(sitePath, c[0])) || FileExists(fs, ConfigPath(sitePath, c[1]))
    ensures FirstServing(fs, sitePath, c) == At(0) <==> FileExists(fs, ConfigPath(sitePath, c[0]))
  {
    if FileExists(fs, ConfigPath(sitePath, c[0])) {
      FirstServingIs(fs, sitePath, c, 0);
    } else if FileExists(fs, ConfigPath(sitePath, c[1])) {
      FirstServingIs(fs, sitePath, c, 1);
    } else {
      assert forall j :: 0 <= j < |c| ==> !FileExists(fs, ConfigPath(sitePath, c[j]));
    }
  }

  /** The wp-config.php paths of the two candidates. */
  lemma ConfigPathsOfCandidates(sitePath: string)
    ensures ConfigPath(sitePath, Candidates[0]) == sitePath + "/wp-config.php"
    ensures ConfigPath(sitePath, Candidates[1]) == sitePath + "/public/wp-config.php"
  {
    assert Candidates[0] == "" && Candidates[1] == "public";
    assert sitePath + "/" + "public" + "/wp-config.php" == sitePath + "/public/wp-config.php";
  }

  /** realSitePath for the two candidates. */
  lemma DocumentRootOfCandidates(sitePath: string)
    ensures DocumentRoot(sitePath, Candidates[0]) == sitePath
    ensures DocumentRoot(sitePath, Candidates[1]) == sitePath + "/public"
  {
  }

  // ---------------------------------------------------------------------
  // Static resolution.
  // ---------------------------------------------------------------------

  /**
   * Without '\n' in the request URI, isStaticFile returns a path of its
   * own only for a URI mentioning "wp-content/uploads", and that path is
   * the document root followed by a suffix of the URI.
   */
  lemma ProxyCandidateIsUpload(d: LocalValetDriver, fs: FileSystem, sitePath: string, siteName: string, uri: string)
    requires '\n' !in uri
    requires d.IsStaticFile(fs, sitePath, siteName, uri).ProxyCandidate?
    ensures Contains(uri, "wp-content/uploads")
    ensures var p := d.IsStaticFile(fs, sitePath, siteName, uri).path;
      var root := DocumentRoot(sitePath, d.publicDir);
      root <= p && EndsWith(uri, p[|root|..])
  {
    var rewritten := RewriteUri(uri, d.multisite).uri;
    RewriteIsSuffix(uri, d.multisite);
    ShouldProxyMentionsUploads(rewritten);
    ContainsInSuffix(rewritten, uri, "wp-content/uploads");
    var root := DocumentRoot(sitePath, d.publicDir);
    assert (root + rewritten)[|root|..] == rewritten;
  }

  /** A local file is never a proxy candidate: the parent handles it. */
  lemma LocalFileGoesToParent(d: LocalValetDriver, fs: FileSystem, sitePath: string, siteName: string, uri: string)
    requires !EndsWith(uri, "/wp-admin")
    requires IsActualFile(fs, DocumentRoot(sitePath, d.publicDir) + RewriteUri(uri, d.multisite).uri)
    ensures d.IsStaticFile(fs, sitePath, siteName, uri)
      == ParentStatic(DocumentRoot(sitePath, d.publicDir), siteName, RewriteUri(uri, d.multisite).uri)
  {
  }

  /** On a single site, isStaticFile tests the URI as given. */
  lemma SingleSiteLookup(d: LocalValetDriver, fs: FileSystem, sitePath: string, siteName: string, uri: string)
    requires !d.multisite && !EndsWith(uri, "/wp-admin")
    ensures var root := DocumentRoot(sitePath, d.publicDir);
      d.IsStaticFile(fs, sitePath, siteName, uri)
      == if ShouldProxy(uri) && !IsActualFile(fs, root + uri) then ProxyCandidate(root + uri)
         else ParentStatic(root, siteName, uri)
  {
  }

  /** On a single site the proxy candidate is the document root followed by the URI itself. */
  lemma SingleSitePath(d: LocalValetDriver, fs: FileSystem, sitePath: string, siteName: string, uri: string)
    requires !d.multisite
    requires d.IsStaticFile(fs, sitePath, siteName, uri).ProxyCandidate?
    ensures d.IsStaticFile(fs, sitePath, siteName, uri).path == DocumentRoot(sitePath, d.publicDir) + uri
  {
  }

  // ---------------------------------------------------------------------
  // The proxy URL.
  // ---------------------------------------------------------------------

  /**
   * The whitespace trim leaves the rtrim of '/' alone exactly when that
   * does not end in whitespace, and the URL then does not end in '/'.
   */
  lemma ProxyUrlWithoutSpace(contents: string)
    ensures var inner := RTrim(contents, Slash);
      ProxyUrl(contents) == inner <==> inner == [] || inner[|inner| - 1] !in PhpTrimCharacters
    ensures var inner := RTrim(contents, Slash);
      (inner == [] || inner[|inner| - 1] !in PhpTrimCharacters) ==>
      var url := ProxyUrl(contents); url == [] || url[|url| - 1] != '/'
  {
    var inner := RTrim(contents, Slash);
    if inner == [] || inner[|inner| - 1] !in PhpTrimCharacters {
      RTrimKeeps(inner, PhpTrimCharacters);
    }
  }

  /** With whitespace between two '/', the URL keeps the first '/'. */
  lemma ProxyUrlOfSlashSpaceSlash()
    ensures ProxyUrl("a/ /") == "a/"
  {
    assert "a/ " + ['/'] == "a/ /";
    RTrimDrops("a/ ", '/', Slash);
    RTrimKeeps("a/ ", Slash);
    assert "a/" + [' '] == "a/ ";
    RTrimDrops("a/", ' ', PhpTrimCharacters);
    RTrimKeeps("a/", PhpTrimCharacters);
  }

  /** The usual marker: one URL, whose trailing '/' goes. */
  lemma ProxyUrlOfSlashedHost()
    ensures ProxyUrl("https://cdn.example.com/") == "https://cdn.example.com"
  {
    var host := "https://cdn.example.com";
    assert host + ['/'] == "https://cdn.example.com/";
    RTrimDrops(host, '/', Slash);
    RTrimKeeps(host, Slash);
    RTrimKeeps(host, PhpTrimCharacters);
  }

  /**
   * '/' is trimmed before whitespace: a '/' followed by a non-empty run of
   * whitespace stays, and only the whitespace goes.
   */
  lemma ProxyUrlKeepsSlashBeforeSpace(u: string, w: string)
    requires w != [] && forall i :: 0 <= i < |w| ==> w[i] in PhpTrimCharacters
    ensures ProxyUrl(u + "/" + w) == u + "/"
  {
    var contents := u + "/" + w;
    assert contents[|contents| - 1] == w[|w| - 1];
    RTrimKeeps(contents, Slash);
    RTrimDropsRun(u + "/", w, PhpTrimCharacters);
    RTrimKeeps(u + "/", PhpTrimCharacters);
  }

  /** The same on one example: a '/' before a final newline stays. */
  lemma ProxyUrlKeepsSlashBeforeNewline()
    ensures ProxyUrl("https://x/\n") == "https://x/"
  {
    var url := "https://x/";
    assert url + ['\n'] == "https://x/\n";
    RTrimKeeps(url + ['\n'], Slash);
    RTrimDrops(url, '\n', PhpTrimCharacters);
    RTrimKeeps(url, PhpTrimCharacters);
  }

  // ---------------------------------------------------------------------
  // A request for a missing upload, end to end.
  // ---------------------------------------------------------------------

  /** A wp-config.php too short to hold a define can not declare a multisite. */
  lemma ShortConfigIsSingleSite(contents: string)
    requires |contents| < |"define("|
    ensures !DeclaresMultisite(contents)
  {
  }

  const Root: string := "/srv/blog"
  const Upload: string := "/wp-content/uploads/2021/pic.jpg"
  const Cdn: string := "https://cdn.example.com/"

  /**
   * A site whose wp-config.php is in public/, a single site, with the
   * proxy marker at `marker` and, when `local`, the upload on disk.
   */
  function Blog(marker: string, local: bool): FileSystem {
    var site := map[Root + "/public/wp-config.php" := File("<?php"), marker := File(Cdn)];
    if local then site[Root + "/public" + Upload := File("JFIF")] else site
  }

  /** Where the Blog files are. */
  lemma BlogFiles(marker: string, local: bool)
    requires marker == Root + "/.uploads-proxy" || marker == Root + "/public/.uploads-proxy"
    ensures !FileExists(Blog(marker, local), Root + "/wp-config.php")
    ensures FileExists(Blog(marker, local), Root + "/public/wp-config.php")
    ensures FileGetContents(Blog(marker, local), Root + "/public/wp-config.php") == "<?php"
    ensures !FileExists(Blog(marker, local), Root + EnvName)
    ensures IsActualFile(Blog(marker, local), Root + "/public" + Upload) <==> local
    ensures FileExists(Blog(marker, local), Root + "/public" + Upload) <==> local
    ensures FileExists(Blog(marker, local), Root + "/.uploads-proxy") <==> marker == Root + "/.uploads-proxy"
    ensures marker == Root + "/.uploads-proxy" ==> FileGetContents(Blog(marker, local), marker) == Cdn
  {
    var config := Root + "/public/wp-config.php";
    var file := Root + "/public" + Upload;
    assert config != Root + "/wp-config.php" && config != Root + EnvName && config != file;
    assert config != Root + "/.uploads-proxy";
    assert marker != Root + "/wp-config.php" && marker != Root + EnvName && marker != file && marker != config;
    assert file != Root + "/wp-config.php" && file != Root + EnvName && file != Root + "/.uploads-proxy";
    assert Root + "/public/.uploads-proxy" != Root + "/.uploads-proxy";
  }

  /** serves picks public/ for the Blog, and the Blog is not a multisite. */
  lemma BlogIsServedFromPublic(marker: string, local: bool)
    requires marker == Root + "/.uploads-proxy" || marker == Root + "/public/.uploads-proxy"
    ensures FirstServing(Blog(marker, local), Root, Candidates) == At(1)
    ensures !MultisiteConfigured(Blog(marker, local), Root, ConfigPath(Root, "public"))
  {
    BlogFiles(marker, local);
    ServesIff(Blog(marker, local), Root);
    assert ConfigPath(Root, "public") == Root + "/public/wp-config.php";
    ShortConfigIsSingleSite("<?php");
  }

  /** isStaticFile on the Blog's upload. */
  lemma BlogLookup(d: LocalValetDriver, marker: string, local: bool)
    requires marker == Root + "/.uploads-proxy" || marker == Root + "/public/.uploads-proxy"
    requires d.publicDir == "public" && !d.multisite
    ensures !local ==> d.IsStaticFile(Blog(marker, local), Root, "blog", Upload) == ProxyCandidate(Root + "/public" + Upload)
    ensures local ==> d.IsStaticFile(Blog(marker, local), Root, "blog", Upload) == ParentStatic(Root + "/public", "blog", Upload)
  {
    var fs := Blog(marker, local);
    BlogFiles(marker, local);
    UploadIsProxied();
    assert Upload[|Upload| - 1] == 'g';
    var root := DocumentRoot(Root, "public");
    assert root == Root + "/public";
    SingleSiteLookup(d, fs, Root, "blog", Upload);
  }

  /** serveStaticFile on the Blog's missing upload. */
  lemma BlogServing(d: LocalValetDriver, marker: string)
    requires marker == Root + "/.uploads-proxy" || marker == Root + "/public/.uploads-proxy"
    ensures marker == Root + "/.uploads-proxy" ==>
      d.ServeStaticFile(Blog(marker, false), Root + "/public" + Upload, Root, "blog", Upload)
      == ProxyRedirect("https://cdn.example.com" + Upload)
    ensures marker == Root + "/public/.uploads-proxy" ==>
      d.ServeStaticFile(Blog(marker, false), Root + "/public" + Upload, Root, "blog", Upload)
      == ParentServe(Root + "/public" + Upload, Root, "blog", Upload)
  {
    BlogFiles(marker, false);
    UploadIsProxied();
    ProxyUrlOfSlashedHost();
  }

  /**
   * A missing upload of a site in public/, with the marker in the project
   * root: isStaticFile returns its local path, and serving that path
   * redirects to the remote host with the request URI appended.
   */
  method MissingUploadIsProxied() returns (served: bool, lookup: StaticLookup, serving: Serving)
    ensures served
    ensures lookup == ProxyCandidate(Root + "/public" + Upload)
    ensures serving == ProxyRedirect("https://cdn.example.com" + Upload)
  {
    var marker := Root + "/.uploads-proxy";
    var fs := Blog(marker, false);
    var driver := new LocalValetDriver();
    BlogIsServedFromPublic(marker, false);
    served := driver.Serves(fs, Root, "blog", Upload);
    assert driver.publicDir == "public" && !driver.multisite;
    BlogLookup(driver, marker, false);
    lookup := driver.IsStaticFile(fs, Root, "blog", Upload);
    BlogServing(driver, marker);
    serving := driver.ServeStaticFile(fs, lookup.path, Root, "blog", Upload);
  }

  /** The same site with the marker in public/: it is not read, and the parent serves. */
  method MarkerInPublicIsNotRead() returns (served: bool, lookup: StaticLookup, serving: Serving)
    ensures served
    ensures lookup == ProxyCandidate(Root + "/public" + Upload)
    ensures serving == ParentServe(Root + "/public" + Upload, Root, "blog", Upload)
  {
    var marker := Root + "/public/.uploads-proxy";
    var fs := Blog(marker, false);
    var driver := new LocalValetDriver();
    BlogIsServedFromPublic(marker, false);
    served := driver.Serves(fs, Root, "blog", Upload);
    assert driver.publicDir == "public" && !driver.multisite;
    BlogLookup(driver, marker, false);
    lookup := driver.IsStaticFile(fs, Root, "blog", Upload);
    BlogServing(driver, marker);
    serving := driver.ServeStaticFile(fs, lookup.path, Root, "blog", Upload);
  }

  /** The upload on disk: isStaticFile hands it to the parent, and the proxy is not consulted. */
  method LocalUploadIsNotProxied() returns (served: bool, lookup: StaticLookup)
    ensures served
    ensures lookup == ParentStatic(Root + "/public", "blog", Upload)
  {
    var marker := Root + "/.uploads-proxy";
    var fs := Blog(marker, true);
    var driver := new LocalValetDriver();
    BlogIsServedFromPublic(marker, true);
    served := driver.Serves(fs, Root, "blog", Upload);
    assert driver.publicDir == "public" && !driver.multisite;
    BlogLookup(driver, marker, true);
    lookup := driver.IsStaticFile(fs, Root, "blog", Upload);
  }

  // ---------------------------------------------------------------------
  // A missing upload of a multisite sub-site, end to end.
  // ---------------------------------------------------------------------

  const NetworkConfig: string := "define('MULTISITE', true);"
  const SiteUpload: string := "/site2/wp-content/uploads/x.png"
  const MainUpload: string := "/wp-content/uploads/x.png"

  /** A multisite at the project root, with the proxy marker beside it. */
  function Network(): FileSystem {
    map[Root + "/wp-config.php" := File(NetworkConfig), Root + "/.uploads-proxy" := File(Cdn)]
  }

  /** Where the Network files are. */
  lemma NetworkFiles()
    ensures FileExists(Network(), Root + "/wp-config.php")
    ensures FileGetContents(Network(), Root + "/wp-config.php") == NetworkConfig
    ensures !FileExists(Network(), Root + MainUpload)
    ensures FileExists(Network(), Root + "/.uploads-proxy")
    ensures FileGetContents(Network(), Root + "/.uploads-proxy") == Cdn
  {
    assert Root + "/wp-config.php" != Root + "/.uploads-proxy";
    assert |Root + MainUpload| != |Root + "/wp-config.php"|;
    assert |Root + MainUpload| != |Root + "/.uploads-proxy"|;
  }

  /** serves picks the project root, and the define there marks a multisite. */
  lemma NetworkIsServedFromRoot()
    ensures FirstServing(Network(), Root, Candidates) == At(0)
    ensures MultisiteConfigured(Network(), Root, ConfigPath(Root, ""))
  {
    NetworkFiles();
    ServesIff(Network(), Root);
    assert ConfigPath(Root, "") == Root + "/wp-config.php";
    MultisiteDefineDeclares();
  }

  /** isStaticFile rewrites the sub-site's upload to the shared uploads tree. */
  lemma NetworkLookup(d: LocalValetDriver)
    requires d.publicDir == "" && d.multisite
    ensures d.IsStaticFile(Network(), Root, "blog", SiteUpload) == ProxyCandidate(Root + MainUpload)
  {
    NetworkFiles();
    UploadCollapses();
    SiteUploadsAreProxied();
  }

  /** serveStaticFile redirects with the raw URI, sub-site prefix and all. */
  lemma NetworkServing(d: LocalValetDriver)
    ensures d.ServeStaticFile(Network(), Root + MainUpload, Root, "blog", SiteUpload)
      == ProxyRedirect("https://cdn.example.com" + SiteUpload)
  {
    NetworkFiles();
    SiteUploadsAreProxied();
    ProxyUrlOfSlashedHost();
  }

  /**
   * A missing upload of the sub-site site2: isStaticFile looks for the
   * rewritten path under the project root, and serving it redirects to the
   * remote host with the URI as requested, not as rewritten.
   */
  method MultisiteUploadIsProxied() returns (served: bool, lookup: StaticLookup, serving: Serving)
    ensures served
    ensures lookup == ProxyCandidate(Root + "/wp-content/uploads/x.png")
    ensures serving == ProxyRedirect("https://cdn.example.com" + "/site2/wp-content/uploads/x.png")
  {
    var fs := Network();
    var driver := new LocalValetDriver();
    NetworkIsServedFromRoot();
    served := driver.Serves(fs, Root, "blog", SiteUpload);
    assert driver.publicDir == "" && driver.multisite;
    NetworkLookup(driver);
    lookup := driver.IsStaticFile(fs, Root, "blog", SiteUpload);
    NetworkServing(driver);
    serving := driver.ServeStaticFile(fs, lookup.path, Root, "blog", SiteUpload);
  }
}
