/**
 * shouldProxy: whether the directory part of a URI, as
 * `pathinfo($uri, PATHINFO_DIRNAME)` computes it, contains
 * "wp-content/uploads". pathinfo's dirname is PHP's dirname of the path
 * (zend_dirname on a POSIX system, where the only separator is '/').
 */
module Paths {
  import opened PhpStrings

  /**
   * zend_dirname: drop trailing '/'s, then the last segment, then the '/'s
   * before it. "" stays "", a path of only '/'s gives "/", a path with no
   * '/' gives ".", and a parent that becomes empty gives "/".
   */
  function Dirname(path: string): (d: string)
    ensures d == "" <==> path == ""
    ensures path != "" && '/' !in path ==> d == "."
    ensures d == "" || d == "/" || d == "." || (d < path && d[|d| - 1] != '/')
  {
    if path == "" then ""
    else
      var trimmed := RTrim(path, Slash);
      if trimmed == "" then "/"
      else
        match LastSlash(trimmed)
        case NotFound =>
          assert '/' !in path ==> trimmed == path;
          "."
        case At(i) =>
          var parent := RTrim(trimmed[..i], Slash);
          if parent == "" then "/" else parent
  }

  /** shouldProxy: the dirname contains "wp-content/uploads". */
  predicate ShouldProxy(uri: string) {
    Contains(Dirname(uri), "wp-content/uploads")
  }

  /** rtrim of '/' removes one more trailing '/' as well. */
  lemma RTrimOneMore(p: string)
    ensures RTrim(p + "/", Slash) == RTrim(p, Slash)
  {
    assert (p + "/")[..|p|] == p;
  }

  /** The parent of the last segment, when the parent does not end in '/'. */
  lemma DirnameOfChild(dir: string, name: string)
    requires dir != [] && dir[|dir| - 1] != '/'
    requires name != [] && '/' !in name
    ensures Dirname(dir + "/" + name) == dir
  {
    var p := dir + "/" + name;
    assert p[|p| - 1] == name[|name| - 1];
    RTrimKeeps(p, Slash);
    assert p[|dir| + 1..] == name;
    LastSlashUnique(p, |dir|);
    assert p[..|dir|] == dir;
    RTrimKeeps(dir, Slash);
  }

  /** A segment directly under the root has "/" as its dirname. */
  lemma DirnameOfTopLevel(name: string)
    requires name != [] && '/' !in name
    ensures Dirname("/" + name) == "/"
  {
    var p := "/" + name;
    assert p[|p| - 1] == name[|name| - 1];
    RTrimKeeps(p, Slash);
    assert p[1..] == name;
    LastSlashUnique(p, 0);
  }

  /** dirname ignores a trailing '/': "/a/b/" has the dirname of "/a/b". */
  lemma DirnameIgnoresTrailingSlash(p: string)
    requires p != ""
    ensures Dirname(p + "/") == Dirname(p)
  {
    RTrimOneMore(p);
  }

  /** The needle is longer than "/" and ".", so only a real parent can hold it. */
  lemma ShortTextsOmitUploads(s: string)
    requires |s| <= 1
    ensures !Contains(s, "wp-content/uploads")
  {
  }

  /** A URI that shouldProxy accepts mentions "wp-content/uploads" itself. */
  lemma ShouldProxyMentionsUploads(uri: string)
    requires ShouldProxy(uri)
    ensures Contains(uri, "wp-content/uploads")
  {
    var d := Dirname(uri);
    if |d| <= 1 {
      ShortTextsOmitUploads(d);
    } else {
      ContainsExtends(d, uri, "wp-content/uploads");
    }
  }

  /**
   * For a file `dir + "/" + name`, shouldProxy is exactly "the directory
   * contains wp-content/uploads": a substring test, not a segment test.
   */
  lemma ShouldProxyOfChild(dir: string, name: string)
    requires dir != [] && dir[|dir| - 1] != '/'
    requires name != [] && '/' !in name
    ensures ShouldProxy(dir + "/" + name) <==> Contains(dir, "wp-content/uploads")
  {
    DirnameOfChild(dir, name);
  }

  /** A file of the uploads tree is proxy-eligible. */
  lemma UploadIsProxied()
    ensures ShouldProxy("/wp-content/uploads/2021/pic.jpg")
  {
    var dir := "/wp-content/uploads/2021";
    UploadPathPieces();
    StartsAtJoin("/", "wp-content/uploads", "/2021");
    ShouldProxyOfChild(dir, "pic.jpg");
  }

  lemma UploadPathPieces()
    ensures "/wp-content/uploads/2021" + "/" + "pic.jpg" == "/wp-content/uploads/2021/pic.jpg"
    ensures "/wp-content/uploads/2021" == "/" + "wp-content/uploads" + "/2021"
  {
  }

  /** A theme file is not. */
  lemma ThemeIsNotProxied()
    ensures !ShouldProxy("/wp-content/themes/x.css")
  {
    var dir := "/wp-content/themes";
    assert dir + "/" + "x.css" == "/wp-content/themes/x.css";
    assert dir[0] != "wp-content/uploads"[0];
    ShouldProxyOfChild(dir, "x.css");
  }

  /** Nor is the uploads directory itself: its dirname is "/wp-content". */
  lemma UploadsDirectoryIsNotProxied()
    ensures !ShouldProxy("/wp-content/uploads")
  {
    var dir := "/wp-content";
    assert dir + "/" + "uploads" == "/wp-content/uploads";
    ShouldProxyOfChild(dir, "uploads");
  }

  /** The substring test also accepts a directory that only embeds the words. */
  lemma EmbeddedUploadsIsProxied()
    ensures ShouldProxy("/old-wp-content/uploads-2/a.jpg")
  {
    var dir := "/old-wp-content/uploads-2";
    EmbeddedPieces();
    StartsAtJoin("/old-", "wp-content/uploads", "-2");
    ShouldProxyOfChild(dir, "a.jpg");
  }

  lemma EmbeddedPieces()
    ensures "/old-wp-content/uploads-2" + "/" + "a.jpg" == "/old-wp-content/uploads-2/a.jpg"
    ensures "/old-wp-content/uploads-2" == "/old-" + "wp-content/uploads" + "-2"
  {
  }

  /** Every file directly in a `wp-content/uploads` directory is proxy-eligible. */
  lemma UploadFileIsProxied(pre: string, name: string)
    requires name != [] && '/' !in name
    ensures ShouldProxy(pre + "/wp-content/uploads" + "/" + name)
  {
    var dir := pre + "/wp-content/uploads";
    assert dir == (pre + "/") + "wp-content/uploads" + "";
    StartsAtJoin(pre + "/", "wp-content/uploads", "");
    ShouldProxyOfChild(dir, name);
  }

  /** The shared uploads tree of a multisite, and the same file under a sub-site. */
  lemma SiteUploadsAreProxied()
    ensures ShouldProxy("/wp-content/uploads/x.png")
    ensures ShouldProxy("/site2/wp-content/uploads/x.png")
  {
    UploadFileIsProxied("", "x.png");
    UploadFileIsProxied("/site2", "x.png");
    SiteUploadPathPieces();
  }

  lemma SiteUploadPathPieces()
    ensures "" + "/wp-content/uploads" + "/" + "x.png" == "/wp-content/uploads/x.png"
    ensures "/site2" + "/wp-content/uploads" + "/" + "x.png" == "/site2/wp-content/uploads/x.png"
  {
  }
}
