/** The URL and path helpers of unisi/utils.py. The application directory,
    the path separator and the upload directory are parameters (the source
    reads them from the process and from `config`). */
module Utils {
  import opened Values

  /** `s.find(c)`: the first index of `c`, or -1. */
  function Find(s: string, c: char): (r: int)
    ensures -1 <= r < |s|
    ensures r == -1 <==> c !in s
    ensures r >= 0 ==> s[r] == c && c !in s[..r]
  {
    if s == [] then -1
    else if s[0] == c then 0
    else
      var k := Find(s[1..], c);
      if k < 0 then -1
      else
        assert s[..k + 1] == [s[0]] + s[1..][..k];
        k + 1
  }

  /** `s.rfind(c)`: the last index of `c`, or -1. */
  function RFind(s: string, c: char): (r: int)
    ensures -1 <= r < |s|
    ensures r == -1 <==> c !in s
    ensures r >= 0 ==> s[r] == c && c !in s[r + 1..]
  {
    if s == [] then -1
    else if s[|s| - 1] == c then |s| - 1
    else
      var k := RFind(s[..|s| - 1], c);
      assert s[..|s| - 1][k + 1..] + [s[|s| - 1]] == s[k + 1..] by {
        if k < 0 {
          assert c !in s[..|s| - 1];
        }
      }
      k
  }

  /** Whether `s` has `%20` at position `i`. */
  predicate EscapedSpaceAt(s: string, i: int) {
    0 <= i && i + 3 <= |s| && s[i..i + 3] == "%20"
  }

  /** `s.replace('%20', ' ')`: left to right, without overlaps. */
  function Unescape(s: string): (r: string)
    ensures |r| <= |s| && (|s| - |r|) % 2 == 0
  {
    if EscapedSpaceAt(s, 0) then [' '] + Unescape(s[3..])
    else if s == [] then []
    else [s[0]] + Unescape(s[1..])
  }

  /** A string without `%20` is left as it is. */
  lemma {:induction false} UnescapeNoEscape(s: string)
    requires forall i :: !EscapedSpaceAt(s, i)
    ensures Unescape(s) == s
  {
    if s != [] {
      assert !EscapedSpaceAt(s, 0);
      forall i ensures !EscapedSpaceAt(s[1..], i) {
        if EscapedSpaceAt(s[1..], i) {
          assert s[1..][i..i + 3] == s[i + 1..i + 4];
          assert EscapedSpaceAt(s, i + 1);
        }
      }
      UnescapeNoEscape(s[1..]);
    }
  }

  /** A `%20` that follows text without `%` becomes one space. */
  lemma {:induction false} UnescapeJoin(a: string, b: string)
    requires '%' !in a
    ensures Unescape(a + "%20" + b) == a + " " + Unescape(b)
  {
    var t := a + "%20" + b;
    if a == [] {
      assert t[3..] == b;
      assert EscapedSpaceAt(t, 0);
    } else {
      assert !EscapedSpaceAt(t, 0) by {
        assert t[0] == a[0];
      }
      assert t[1..] == a[1..] + "%20" + b;
      UnescapeJoin(a[1..], b);
    }
  }

  /** `url2filepath(url)`: all after the first `/` (the whole URL when it has
      none), unescaped. */
  function UrlToFilepath(url: string): (r: string)
    ensures |r| <= |url|
    ensures '/' in url ==> |r| < |url|
    ensures '/' !in url ==> r == Unescape(url)
  {
    Unescape(url[Find(url, '/') + 1..])
  }

  /** `url2filename(url)`: all after the last `/`, unescaped. */
  function UrlToFilename(url: string): (r: string)
    ensures |r| <= |url|
    ensures '/' in url ==> |r| < |url|
    ensures '/' !in url ==> r == Unescape(url)
  {
    Unescape(url[RFind(url, '/') + 1..])
  }

  /** A host part without `/` is cut off whole. */
  lemma FilepathAfterFirstSlash(host: string, path: string)
    requires '/' !in host
    ensures UrlToFilepath(host + "/" + path) == Unescape(path)
  {
    var url := host + "/" + path;
    assert url[|host|] == '/';
    assert '/' !in url[..|host|] by {
      assert url[..|host|] == host;
    }
    assert url[|host| + 1..] == path;
  }

  /** A URL without `/` is its own file path. */
  lemma FilepathWithoutSlash(url: string)
    requires '/' !in url
    ensures UrlToFilepath(url) == Unescape(url)
  {
  }

  /** The file name is the unescaped part after the last `/`. */
  lemma FilenameAfterLastSlash(dir: string, name: string)
    requires '/' !in name
    ensures UrlToFilename(dir + "/" + name) == Unescape(name)
  {
    var url := dir + "/" + name;
    assert url[|dir|] == '/';
    assert url[|dir| + 1..] == name;
  }

  /** `upload_path(fpath)`. */
  function UploadPath(uploadDir: string, divpath: char, fpath: string): (r: string)
    ensures |r| == |uploadDir| + 1 + |fpath|
    ensures r[..|uploadDir|] == uploadDir && r[|uploadDir|] == divpath && r[|uploadDir| + 1..] == fpath
  {
    uploadDir + [divpath] + fpath
  }

  /** With `/` as separator, the file name of an upload path is the uploaded
      name (as `cache_url` relies on), for names without `/` or `%20`. */
  lemma UploadPathRoundTrip(uploadDir: string, fname: string)
    requires '/' !in fname && forall i :: !EscapedSpaceAt(fname, i)
    ensures UrlToFilename(UploadPath(uploadDir, '/', fname)) == fname
  {
    assert UploadPath(uploadDir, '/', fname) == uploadDir + "/" + fname;
    FilenameAfterLastSlash(uploadDir, fname);
    UnescapeNoEscape(fname);
  }

  /** `filename2url(fn)`: an absolute path (leading `/`, or a drive letter
      before `:`) loses as many leading characters as the application
      directory has, then one leading separator is dropped. None where the
      source indexes past the end (IndexError). */
  function FilenameToUrl(fn: string, appDir: string, divpath: char): (r: Option<string>)
    ensures r.Some? ==> |r.value| <= |fn|
  {
    if fn == [] then None
    else if fn[0] != '/' && |fn| < 2 then None
    else
      var fn1 := if fn[0] == '/' || fn[1] == ':' then fn[Min(|appDir|, |fn|)..] else fn;
      if fn1 == [] then None
      else if fn1[0] == divpath then Some(fn1[1..])
      else Some(fn1)
  }

  function Min(a: int, b: int): int {
    if a < b then a else b
  }

  /** An absolute file under the application directory gives its path
      relative to that directory. */
  lemma FilenameToUrlRelative(appDir: string, divpath: char, rel: string)
    requires appDir != [] && appDir[0] == '/'
    ensures FilenameToUrl(appDir + [divpath] + rel, appDir, divpath) == Some(rel)
  {
    var fn := appDir + [divpath] + rel;
    assert fn[0] == '/';
    assert fn[|appDir|..] == [divpath] + rel;
  }

  /** A relative name (no leading `/` or separator, no drive) is unchanged. */
  lemma FilenameToUrlKeepsRelative(fn: string, appDir: string, divpath: char)
    requires |fn| >= 2 && fn[0] != '/' && fn[1] != ':' && fn[0] != divpath
    ensures FilenameToUrl(fn, appDir, divpath) == Some(fn)
  {
  }
}
