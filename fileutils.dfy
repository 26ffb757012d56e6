/** `FileUtils`: the extension of a file path and the resolution of
    root-relative paths. The root directory is an input. */
module FileUtils {
  import opened PhpCore
  import opened PhpStrings

  /** `getExtension($filepath)`: "" without a `.`; otherwise the text after
      the last `.`, lower-cased. */
  function GetExtension(path: string): (e: string)
    ensures '.' !in path ==> e == ""
    ensures '.' !in e
    ensures forall i :: 0 <= i < |e| ==> !IsUpper(e[i])
    ensures |e| < |path| || e == ""
  {
    if '.' !in path then ""
    else
      var rest := SubstringAfterLast(path, '.');
      assert '.' !in rest && |rest| < |path| by {
        var i := LastIndexOf(path, '.').value;
        assert rest == path[i + 1..];
      }
      LowerKeepsDot(rest);
      Lower(rest)
  }

  lemma LowerKeepsDot(s: string)
    requires '.' !in s
    ensures '.' !in Lower(s)
  {
  }

  /** The last occurrence of `c` is the one before a tail without `c`. */
  lemma {:induction false} LastIndexOfBeforeTail(base: string, c: char, tail: string)
    requires c !in tail
    ensures LastIndexOf(base + [c] + tail, c) == Some(|base|)
    decreases |tail|
  {
    var s := base + [c] + tail;
    if tail == [] {
      assert s[|s| - 1] == c;
    } else {
      var init := tail[..|tail| - 1];
      assert s[|s| - 1] == tail[|tail| - 1] != c;
      assert s[..|s| - 1] == base + [c] + init;
      assert c !in init by {
        forall k | 0 <= k < |init| ensures init[k] != c {
          assert init[k] == tail[k];
        }
      }
      LastIndexOfBeforeTail(base, c, init);
    }
  }

  /** The first occurrence of `c` is the one after a head without `c`. */
  lemma IndexOfAfterHead(head: string, c: char, rest: string)
    requires c !in head
    ensures IndexOf(head + [c] + rest, c) == Some(|head|)
  {
    var s := head + [c] + rest;
    assert s[|head|] == c;
  }

  /** The extension of `base.ext` is `ext` lower-cased, whatever `base`
      holds, dots included. */
  lemma ExtensionOfNamedFile(base: string, ext: string)
    requires '.' !in ext
    ensures GetExtension(base + "." + ext) == Lower(ext)
  {
    var s := base + "." + ext;
    assert s == base + ['.'] + ext;
    LastIndexOfBeforeTail(base, '.', ext);
    assert '.' in s by { assert s[|base|] == '.'; }
    assert s[|base| + 1..] == ext;
  }

  /** Applying the rule to a file named after its own extension gives that
      extension back: the result is already in its final form. */
  lemma ExtensionIsStable(base: string, path: string)
    ensures GetExtension(base + "." + GetExtension(path)) == GetExtension(path)
  {
    var e := GetExtension(path);
    ExtensionOfNamedFile(base, e);
    LowerOfLower(e);
  }

  lemma LowerOfLower(s: string)
    requires forall i :: 0 <= i < |s| ==> !IsUpper(s[i])
    ensures Lower(s) == s
  {
  }

  // ----- getRealpath -----

  /** The path prefixes that mark a path relative to the root. */
  predicate HasRootPrefix(path: string) {
    StartsWith(path, "classpath:") || StartsWith(path, "@ProjectRoot:") || StartsWith(path, "@AppRoot:")
  }

  /** The part of a prefixed path after its first `:`, trimmed and
      `/`-prefixed. */
  function RootRelative(path: string): (rel: string)
    ensures StartsWith(rel, "/")
  {
    EnsureLeft(Trim(SubstringAfter(path, ':')), "/")
  }

  /** A relative part placed under the root: as it is for the root "" or
      "/", otherwise after the root with its trailing `/`s removed. */
  function UnderRoot(root: string, rel: string): (r: string)
    ensures root == "" || root == "/" ==> r == rel
    ensures root != "" && root != "/" ==> r == RtrimChar(root, '/') + rel
  {
    if root == "" || root == "/" then rel else RtrimChar(root, '/') + rel
  }

  /** `getRealpath($path)` for the root path `root`: a path without one of
      the prefixes as it is; otherwise its relative part under the root. */
  function GetRealpath(path: string, root: string): (r: string)
    ensures !HasRootPrefix(path) ==> r == path
    ensures HasRootPrefix(path) ==> r == UnderRoot(root, RootRelative(path))
  {
    if !HasRootPrefix(path) then path
    else
      var s1 := Trim(SubstringAfter(path, ':'));
      if root == "" || root == "/" then EnsureLeft(s1, "/")
      else RtrimChar(root, '/') + EnsureLeft(s1, "/")
  }

  /** A placed path always ends with the relative part. */
  lemma UnderRootEndsWithRelative(root: string, rel: string)
    ensures EndsWith(UnderRoot(root, rel), rel)
  {
    if root != "" && root != "/" {
      EndsWithAppended(RtrimChar(root, '/'), rel);
    } else {
      EndsWithAppended([], rel);
    }
  }

  lemma EndsWithAppended(a: string, b: string)
    ensures EndsWith(a + b, b)
  {
    assert (a + b)[|a + b| - |b|..] == b;
  }

  /** Below a root other than "" or "/" a placed path starts with the root
      minus its trailing `/`s; an absolute root and a relative part starting
      with `/` give an absolute path. */
  lemma UnderRootStartsWithRoot(root: string, rel: string)
    requires root != "" && root != "/"
    ensures StartsWith(UnderRoot(root, rel), RtrimChar(root, '/'))
    ensures StartsWith(root, "/") && StartsWith(rel, "/") ==> StartsWith(UnderRoot(root, rel), "/")
  {
    var base := RtrimChar(root, '/');
    var r := base + rel;
    assert r[..|base|] == base;
    if base != [] {
      assert r[0] == base[0] == root[0];
    }
  }

  /** A trailing `/` on the root never matters: "" and "//" behave like "/",
      and any other root like itself. */
  lemma RootTrailingSlashIgnored(root: string, rel: string)
    ensures UnderRoot(root + "/", rel) == UnderRoot(root, rel)
  {
    var r2 := root + "/";
    assert r2[..|r2| - 1] == root;
    if root == "/" {
      assert RtrimChar("//", '/') == "";
    }
  }

  /** For `prefix:rest` with a marker prefix, the relative part is `rest`
      trimmed and `/`-prefixed: the first `:` is the one closing the prefix. */
  lemma RealpathOfPrefixed(prefix: string, rest: string)
    requires prefix == "classpath" || prefix == "@ProjectRoot" || prefix == "@AppRoot"
    ensures HasRootPrefix(prefix + ":" + rest)
    ensures RootRelative(prefix + ":" + rest) == EnsureLeft(Trim(rest), "/")
  {
    assert ':' !in prefix;
    PrefixedStartsWith(prefix + ":", rest);
    SubstringAfterHead(prefix, ':', rest);
  }

  lemma PrefixedStartsWith(head: string, rest: string)
    ensures StartsWith(head + rest, head)
  {
    assert (head + rest)[..|head|] == head;
  }

  /** The text after the first `c` of `head + [c] + rest` is `rest`. */
  lemma SubstringAfterHead(head: string, c: char, rest: string)
    requires c !in head
    ensures SubstringAfter(head + [c] + rest, c) == rest
  {
    IndexOfAfterHead(head, c, rest);
    assert (head + [c] + rest)[|head| + 1..] == rest;
  }
}
