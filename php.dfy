/** The PHP built-ins the extraction core relies on for its naming, as PHP
    implements them on a POSIX host: `basename`, `dirname`, `pathinfo` with
    the FILENAME and EXTENSION flags, and the truthiness of a string. */
module Php {

  /** Index of the last occurrence of `c` in `s`, or -1 when there is none
      (what `zend_memrchr` finds). */
  function LastIndexOf(s: string, c: char): (r: int)
    ensures -1 <= r < |s|
    ensures 0 <= r ==> s[r] == c
    ensures forall j :: r < j < |s| ==> s[j] != c
  {
    if s == [] then -1
    else if s[|s| - 1] == c then |s| - 1
    else LastIndexOf(s[..|s| - 1], c)
  }

  /** `s` without the run of '/' that ends it. */
  function TrimTrailingSlashes(s: string): (r: string)
    ensures r <= s
    ensures r == [] || r[|r| - 1] != '/'
    ensures forall i :: |r| <= i < |s| ==> s[i] == '/'
  {
    if s != [] && s[|s| - 1] == '/' then TrimTrailingSlashes(s[..|s| - 1]) else s
  }

  predicate EndsWith(s: string, suffix: string) {
    |suffix| <= |s| && s[|s| - |suffix|..] == suffix
  }

  /** A string `dirname` can return for a non-empty path: the root, or a
      path that does not end with '/'. */
  predicate DirShaped(d: string) {
    d == "/" || (d != [] && d[|d| - 1] != '/')
  }

  /** `basename($path)`: the last component, trailing slashes ignored. */
  function Basename(path: string): (r: string)
    ensures '/' !in r
  {
    var t := TrimTrailingSlashes(path);
    t[LastIndexOf(t, '/') + 1..]
  }

  /** `pathinfo($path, PATHINFO_FILENAME)`: the base name up to its last dot. */
  function PathinfoFilename(path: string): (r: string)
    ensures '/' !in r
    ensures r <= Basename(path)
  {
    var b := Basename(path);
    var i := LastIndexOf(b, '.');
    if i < 0 then b else b[..i]
  }

  /** `pathinfo($path, PATHINFO_EXTENSION)`: what follows the last dot of the
      base name, or "" when it has none. */
  function PathinfoExtension(path: string): (r: string)
    ensures '/' !in r && '.' !in r
    ensures r != [] ==> '.' in Basename(path)
  {
    var b := Basename(path);
    var i := LastIndexOf(b, '.');
    if i < 0 then [] else b[i + 1..]
  }

  /** `dirname($path)` (zend_dirname): drop trailing slashes, the last
      component and the slashes before it; "." when no slash is left to
      strip, "/" when only slashes are. */
  function Dirname(path: string): (r: string)
    ensures path != [] ==> DirShaped(r)
    ensures path == [] <==> r == []
  {
    if path == [] then []
    else
      var t := TrimTrailingSlashes(path);
      if t == [] then "/"
      else
        var i := LastIndexOf(t, '/');
        if i < 0 then "."
        else
          var u := TrimTrailingSlashes(t[..i]);
          if u == [] then "/" else u
  }

  /** PHP's truthiness of a string: only "" and "0" are false, so every
      string of two or more characters ("00", "0.0", "false") is true. */
  function Truthy(s: string): (r: bool)
    ensures |s| >= 2 ==> r
    ensures |s| < 2 ==> (r <==> s != [] && s[0] != '0')
  {
    s != "" && s != "0"
  }

  /** `pathinfo` splits the base name at its last dot: FILENAME, a dot and
      EXTENSION give the base name back, and without a dot FILENAME is the
      whole base name and EXTENSION is empty. */
  lemma {:induction false} PathinfoRebuildsBasename(path: string)
    ensures '.' in Basename(path) ==>
      Basename(path) == PathinfoFilename(path) + "." + PathinfoExtension(path)
    ensures '.' !in Basename(path) ==>
      PathinfoFilename(path) == Basename(path) && PathinfoExtension(path) == []
  {
    var b := Basename(path);
    var i := LastIndexOf(b, '.');
    if i >= 0 {
      assert b == b[..i] + "." + b[i + 1..];
    } else {
      assert '.' !in b;
    }
  }

  /** A name without '/' is its own base name (when it does not end in a
      slash, which it cannot). */
  lemma {:induction false} BasenameOfPlainName(n: string)
    requires '/' !in n
    ensures Basename(n) == n
  {
    assert TrimTrailingSlashes(n) == n;
    assert LastIndexOf(n, '/') == -1;
  }

  /** For a plain name, the extension is "tar" exactly when the name ends in
      ".tar", and FILENAME then drops those four characters. */
  lemma {:induction false} TarExtension(n: string)
    requires '/' !in n
    ensures PathinfoExtension(n) == "tar" <==> EndsWith(n, ".tar")
    ensures EndsWith(n, ".tar") ==> PathinfoFilename(n) == n[..|n| - 4]
  {
    BasenameOfPlainName(n);
    var i := LastIndexOf(n, '.');
    if EndsWith(n, ".tar") {
      assert n[|n| - 4] == '.';
      assert n[|n| - 3..] == "tar";
      assert n[|n| - 3..][0] == 't' && n[|n| - 3..][1] == 'a' && n[|n| - 3..][2] == 'r';
      assert LastIndexOf(n, '.') == |n| - 4;
    }
    if PathinfoExtension(n) == "tar" {
      assert i >= 0 && n[i + 1..] == "tar";
      assert n[|n| - 4..] == [n[i]] + n[i + 1..];
    }
  }

  /** The directory part and the last component of `d + "/" + n`, for a
      directory as `dirname` returns it and a plain non-empty name, are `d`
      and `n`. */
  lemma {:induction false} DirnameOfChild(d: string, n: string)
    requires DirShaped(d)
    requires n != [] && '/' !in n
    ensures Dirname(d + "/" + n) == d
    ensures Basename(d + "/" + n) == n
  {
    var p := d + "/" + n;
    assert p[|p| - 1] == n[|n| - 1];
    assert TrimTrailingSlashes(p) == p;
    assert p[..|d| + 1] == d + "/";
    assert p[|d| + 1..] == n;
    var i := LastIndexOf(p, '/');
    assert p[|d|] == '/';
    assert i == |d|;
    assert p[..i] == d;
    if d == "/" {
      assert TrimTrailingSlashes(d) == [];
    } else {
      assert TrimTrailingSlashes(d) == d;
    }
  }

  /** A plain name made of a stem, a dot and a dot-free extension: `pathinfo`
      gives that stem as FILENAME and that extension as EXTENSION. */
  lemma {:induction false} SplitAtLastDot(n: string, stem: string, ext: string)
    requires n == stem + "." + ext
    requires '/' !in n && '.' !in ext
    ensures PathinfoFilename(n) == stem
    ensures PathinfoExtension(n) == ext
  {
    BasenameOfPlainName(n);
    assert n[|stem|] == '.';
    assert forall j :: |stem| < j < |n| ==> n[j] == ext[j - |stem| - 1];
    assert LastIndexOf(n, '.') == |stem|;
    assert n[..|stem|] == stem;
    assert n[|stem| + 1..] == ext;
  }
}
