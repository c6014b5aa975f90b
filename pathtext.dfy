/** The Go library string and path routines the filename sanitiser relies on:
    filepath.Base and filepath.Join with Unix semantics, strings.TrimSpace over
    unicode.IsSpace, and the one-for-one replacement of the characters Windows forbids. */
module PathText {

  /** unicode.IsSpace: the Latin-1 spaces and the rest of the Unicode White_Space set. */
  predicate IsSpace(c: char)
  {
    var n := c as int;
    (0x09 <= n <= 0x0D) || n == 0x20 || n == 0x85 || n == 0xA0 || n == 0x1680
    || (0x2000 <= n <= 0x200A) || n == 0x2028 || n == 0x2029 || n == 0x202F
    || n == 0x205F || n == 0x3000
  }

  /** A character of the class [<>:"/\\|?*\x00-\x1F]. */
  predicate IsIllegal(c: char)
  {
    c == '<' || c == '>' || c == ':' || c == '"' || c == '/' || c == '\\'
    || c == '|' || c == '?' || c == '*' || c as int <= 0x1F
  }

  predicate NoIllegal(s: string) { forall k :: 0 <= k < |s| ==> !IsIllegal(s[k]) }

  predicate NoSlash(s: string) { forall k :: 0 <= k < |s| ==> s[k] != '/' }

  /** Drops the leading white space: what is left is a suffix whose first character is not a space. */
  function TrimLeft(s: string): (r: string)
    ensures |r| <= |s| && r == s[|s| - |r|..]
    ensures forall k :: 0 <= k < |s| - |r| ==> IsSpace(s[k])
    ensures r == [] || !IsSpace(r[0])
  {
    if s != [] && IsSpace(s[0]) then TrimLeft(s[1..]) else s
  }

  /** Drops the trailing white space: what is left is a prefix whose last character is not a space. */
  function TrimRight(s: string): (r: string)
    ensures |r| <= |s| && r == s[..|r|]
    ensures forall k :: |r| <= k < |s| ==> IsSpace(s[k])
    ensures r == [] || !IsSpace(r[|r| - 1])
  {
    if s != [] && IsSpace(s[|s| - 1]) then TrimRight(s[..|s| - 1]) else s
  }

  /** `r` is the infix of `s` starting at `a`, with only white space before and after it. */
  predicate InfixBetweenSpaces(s: string, r: string, a: int)
  {
    && 0 <= a <= |s| - |r|
    && r == s[a..a + |r|]
    && (forall k :: 0 <= k < a ==> IsSpace(s[k]))
    && (forall k :: a + |r| <= k < |s| ==> IsSpace(s[k]))
  }

  /** A space-preceded suffix of `s`, cut back to a prefix followed by spaces, is an infix
      between spaces. */
  lemma InfixOfSuffixPrefix(s: string, left: string, r: string)
    requires |left| <= |s| && left == s[|s| - |left|..]
    requires forall k :: 0 <= k < |s| - |left| ==> IsSpace(s[k])
    requires |r| <= |left| && r == left[..|r|]
    requires forall k :: |r| <= k < |left| ==> IsSpace(left[k])
    ensures InfixBetweenSpaces(s, r, |s| - |left|)
  {
    var a := |s| - |left|;
    forall k | a + |r| <= k < |s|
      ensures IsSpace(s[k])
    {
      assert s[k] == left[k - a];
    }
  }

  /** strings.TrimSpace: the infix that neither starts nor ends with white space, everything
      cut off on either side being white space. */
  function TrimSpace(s: string): (r: string)
    ensures r == [] || (!IsSpace(r[0]) && !IsSpace(r[|r| - 1]))
    ensures exists a :: InfixBetweenSpaces(s, r, a)
  {
    var left := TrimLeft(s);
    var r := TrimRight(left);
    InfixOfSuffixPrefix(s, left, r);
    r
  }

  /** A string that neither starts nor ends with white space is its own trim. */
  lemma TrimSpaceKeepsTrimmed(s: string)
    requires s == [] || (!IsSpace(s[0]) && !IsSpace(s[|s| - 1]))
    ensures TrimSpace(s) == s
  {
  }

  /** The path without its trailing slashes. */
  function TrimTrailingSlashes(p: string): (q: string)
    ensures |q| <= |p| && q == p[..|q|]
    ensures forall k :: |q| <= k < |p| ==> p[k] == '/'
    ensures q == [] || q[|q| - 1] != '/'
  {
    if p != [] && p[|p| - 1] == '/' then TrimTrailingSlashes(p[..|p| - 1]) else p
  }

  /** Everything after the last slash: a slash-free suffix that is the whole string or follows a '/'. */
  function LastSegment(q: string): (seg: string)
    ensures |seg| <= |q| && seg == q[|q| - |seg|..]
    ensures NoSlash(seg)
    ensures |seg| == |q| || q[|q| - |seg| - 1] == '/'
  {
    if q == [] || q[|q| - 1] == '/' then [] else LastSegment(q[..|q| - 1]) + [q[|q| - 1]]
  }

  /** filepath.Base on Unix: "." for the empty path, "/" for a path of slashes only, and
      otherwise the last element once trailing slashes are removed. */
  function Base(path: string): (r: string)
    ensures r != []
    ensures path == [] ==> r == "."
    ensures r == "/" <==> path != [] && TrimTrailingSlashes(path) == []
    ensures r == "/" || NoSlash(r)
    ensures path != [] && r != "/" ==>
      var q := TrimTrailingSlashes(path);
      |r| <= |q| && r == q[|q| - |r|..] && (|r| == |q| || q[|q| - |r| - 1] == '/')
  {
    if path == [] then "."
    else
      var seg := LastSegment(TrimTrailingSlashes(path));
      if seg == [] then "/" else seg
  }

  lemma {:induction false} LastSegmentOfSegment(s: string)
    requires NoSlash(s)
    ensures LastSegment(s) == s
  {
    if s != [] {
      LastSegmentOfSegment(s[..|s| - 1]);
      assert s == s[..|s| - 1] + [s[|s| - 1]];
    }
  }

  /** A non-empty slash-free name is its own base name. */
  lemma BaseOfSegment(s: string)
    requires s != [] && NoSlash(s)
    ensures Base(s) == s
  {
    LastSegmentOfSegment(s);
  }

  /** filepath.Join for a directory and an entry name that holds no separator. */
  function Join(dir: string, name: string): (r: string)
    ensures |r| > |dir|
  {
    dir + "/" + name
  }

  function ReplaceChar(c: char): (d: char)
    ensures !IsIllegal(d)
  {
    if IsIllegal(c) then '_' else c
  }

  /** Replaces every illegal character by '_', one for one, and keeps every other character. */
  function ReplaceIllegal(s: string): (r: string)
    ensures |r| == |s| && NoIllegal(r)
    ensures forall k :: 0 <= k < |s| && !IsIllegal(s[k]) ==> r[k] == s[k]
    ensures forall k :: 0 <= k < |s| && IsIllegal(s[k]) ==> r[k] == '_'
  {
    seq(|s|, k requires 0 <= k < |s| => ReplaceChar(s[k]))
  }

  /** A string without illegal characters is left as it is. */
  lemma ReplaceIllegalKeepsLegal(s: string)
    requires NoIllegal(s)
    ensures ReplaceIllegal(s) == s
  {
  }

  /** Replacing never puts white space at either end: '_' is not white space. */
  lemma ReplaceIllegalKeepsTrimmed(s: string)
    requires s == [] || (!IsSpace(s[0]) && !IsSpace(s[|s| - 1]))
    ensures var r := ReplaceIllegal(s); r == [] || (!IsSpace(r[0]) && !IsSpace(r[|r| - 1]))
  {
  }

  /** What follows the last slash is the last segment, whatever precedes it. */
  lemma {:induction false} LastSegmentAfterSlash(dir: string, name: string)
    requires NoSlash(name)
    ensures LastSegment(dir + "/" + name) == name
    decreases |name|
  {
    var p := dir + "/" + name;
    if name != [] {
      var init := name[..|name| - 1];
      assert p[..|p| - 1] == dir + "/" + init;
      LastSegmentAfterSlash(dir, init);
      assert name == init + [name[|name| - 1]];
    }
  }

  /** Base undoes Join: the base name of a joined path is the non-empty, slash-free name. */
  lemma BaseOfJoin(dir: string, name: string)
    requires name != [] && NoSlash(name)
    ensures Base(Join(dir, name)) == name
  {
    var p := dir + "/" + name;
    assert p[|p| - 1] == name[|name| - 1];
    assert TrimTrailingSlashes(p) == p;
    LastSegmentAfterSlash(dir, name);
  }

  /** The base name of a concrete path, worked out once so that callers need not unfold it. */
  lemma BaseOfPasswdPath(name: string)
    requires name == "../../etc/passwd"
    ensures Base(name) == "passwd"
  {
    assert name == Join("../../etc", "passwd");
    BaseOfJoin("../../etc", "passwd");
  }

  /** The replacement on a concrete name, worked out once. */
  lemma ReplaceInWeirdName(name: string)
    requires name == "weird:name?.txt"
    ensures NoSlash(name) && !IsSpace(name[0]) && !IsSpace(name[|name| - 1])
    ensures ReplaceIllegal(name) == "weird_name_.txt"
  {
  }
}
