/** The few Ruby string operations the modelled code relies on, over ASCII. */
module Text {

  /** `String#upcase` on one character (ASCII letters only). */
  function ToUpper(c: char): char {
    if 'a' <= c <= 'z' then (c as int - 32) as char else c
  }

  /** `String#downcase` on one character (ASCII letters only). */
  function ToLower(c: char): char {
    if 'A' <= c <= 'Z' then (c as int + 32) as char else c
  }

  function Upcase(s: string): string {
    seq(|s|, i requires 0 <= i < |s| => ToUpper(s[i]))
  }

  function Downcase(s: string): string {
    seq(|s|, i requires 0 <= i < |s| => ToLower(s[i]))
  }

  /** The characters `String#strip` removes: NUL, space, and tab through carriage return
      (tab, line feed, vertical tab, form feed, carriage return). */
  predicate IsStripped(c: char) {
    c == '\0' || '\t' <= c <= '\r' || c == ' '
  }

  /** `s` without its leading whitespace. */
  function StripLeft(s: string): string {
    if s != [] && IsStripped(s[0]) then StripLeft(s[1..]) else s
  }

  /** `StripLeft` drops a whitespace prefix and stops at the first other character. */
  lemma {:induction false} StripLeftFacts(s: string)
    ensures var r := StripLeft(s);
      && |r| <= |s| && r == s[|s| - |r|..]
      && (r == [] || !IsStripped(r[0]))
      && forall i :: 0 <= i < |s| - |r| ==> IsStripped(s[i])
    decreases |s|
  {
    if s != [] && IsStripped(s[0]) {
      StripLeftFacts(s[1..]);
      assert forall i :: 1 <= i < |s| ==> s[i] == s[1..][i - 1];
    }
  }

  /** `s` without its trailing whitespace. */
  function StripRight(s: string): string {
    if s != [] && IsStripped(s[|s| - 1]) then StripRight(s[..|s| - 1]) else s
  }

  /** `StripRight` drops a whitespace suffix and stops at the last other character. */
  lemma {:induction false} StripRightFacts(s: string)
    ensures var r := StripRight(s);
      && |r| <= |s| && r == s[..|r|]
      && (r == [] || !IsStripped(r[|r| - 1]))
      && forall i :: |r| <= i < |s| ==> IsStripped(s[i])
    decreases |s|
  {
    if s != [] && IsStripped(s[|s| - 1]) {
      StripRightFacts(s[..|s| - 1]);
    }
  }

  /** `String#strip`. */
  function Strip(s: string): string {
    StripRight(StripLeft(s))
  }

  /** `Strip` keeps a contiguous part of the input that neither starts nor
      ends with whitespace, and drops only whitespace around it. */
  lemma StripTrims(s: string)
    ensures var r := Strip(s); var i := |s| - |StripLeft(s)|;
      && 0 <= i <= i + |r| <= |s| && r == s[i..i + |r|]
      && (r == [] || (!IsStripped(r[0]) && !IsStripped(r[|r| - 1])))
      && (forall k :: 0 <= k < i ==> IsStripped(s[k]))
      && (forall k :: i + |r| <= k < |s| ==> IsStripped(s[k]))
  {
    StripLeftFacts(s);
    StripRightFacts(StripLeft(s));
    StripKeepsMiddle(s);
    StripDropsTrailing(s);
  }

  lemma StripKeepsMiddle(s: string)
    requires var l := StripLeft(s);
      && |l| <= |s| && l == s[|s| - |l|..] && (l == [] || !IsStripped(l[0]))
      && var r := StripRight(l); |r| <= |l| && r == l[..|r|]
    ensures var r := Strip(s); var i := |s| - |StripLeft(s)|;
      r == s[i..i + |r|] && (r == [] || !IsStripped(r[0]))
  {
    var l := StripLeft(s);
    var r := StripRight(l);
    if r != [] {
      assert r[0] == l[0];
    }
  }

  lemma StripDropsTrailing(s: string)
    requires var l := StripLeft(s);
      && |l| <= |s| && l == s[|s| - |l|..]
      && var r := StripRight(l); |r| <= |l| && forall k :: |r| <= k < |l| ==> IsStripped(l[k])
    ensures var r := Strip(s); var i := |s| - |StripLeft(s)|;
      forall k :: i + |r| <= k < |s| ==> IsStripped(s[k])
  {
    var l := StripLeft(s);
    var i := |s| - |l|;
    forall k | i + |Strip(s)| <= k < |s| ensures IsStripped(s[k]) {
      assert s[k] == l[k - i];
    }
  }

  /** A string strips to nothing exactly when it is whitespace throughout. */
  lemma StripEmptyIff(s: string)
    ensures Strip(s) == [] <==> forall i :: 0 <= i < |s| ==> IsStripped(s[i])
  {
    StripTrims(s);
  }

  /** Index of the last `c` in `s`, if any. */
  function LastIndexOf(s: string, c: char): (r: int)
    ensures -1 <= r < |s|
    ensures r >= 0 ==> s[r] == c
    ensures forall i :: r < i < |s| ==> s[i] != c
  {
    if s == [] then -1
    else if s[|s| - 1] == c then |s| - 1
    else LastIndexOf(s[..|s| - 1], c)
  }

  /** `s` without its trailing run of `/`. */
  function TrimTrailingSlashes(s: string): (r: string)
    ensures |r| <= |s| && r == s[..|r|]
    ensures r == [] || r[|r| - 1] != '/'
    ensures forall k :: |r| <= k < |s| ==> s[k] == '/'
  {
    if s != [] && s[|s| - 1] == '/' then TrimTrailingSlashes(s[..|s| - 1]) else s
  }

  /** `File.dirname` for a path without trailing slashes: the part before
      the last `/`, `"/"` when that part is empty, `"."` when there is no `/`. */
  function Dirname(path: string): (r: string)
    ensures '/' !in path ==> r == "."
    ensures '/' in path ==> r == "/" || (0 < |r| < |path| && r == path[..|r|] && r[|r| - 1] != '/')
    // What lies between the directory and the last `/` is slashes only.
    ensures '/' in path && r != "/" ==> forall k :: |r| <= k < LastIndexOf(path, '/') ==> path[k] == '/'
    // `/` is answered only when everything before the last `/` is slashes.
    ensures '/' in path && r == "/" ==> forall k :: 0 <= k < LastIndexOf(path, '/') ==> path[k] == '/'
  {
    var i := LastIndexOf(path, '/');
    if i < 0 then
      assert forall j :: 0 <= j < |path| ==> path[j] != '/';
      "."
    else
      var head := TrimTrailingSlashes(path[..i]);
      if head == [] then "/" else head
  }

  /** The directory of a file named inside `dir` is `dir`. */
  lemma DirnameOfChild(dir: string, name: string)
    requires dir != [] && dir[|dir| - 1] != '/' && '/' !in name
    ensures Dirname(dir + "/" + name) == dir
  {
    var path := dir + "/" + name;
    assert path[|dir|] == '/';
    var i := LastIndexOf(path, '/');
    assert i == |dir| by {
      forall k | |dir| < k < |path| ensures path[k] != '/' {
        assert path[k] == name[k - |dir| - 1];
      }
    }
    assert path[..i] == dir;
  }

  predicate HasPrefix(s: string, prefix: string) {
    |prefix| <= |s| && s[..|prefix|] == prefix
  }

  predicate HasSuffix(s: string, suffix: string) {
    |suffix| <= |s| && s[|s| - |suffix|..] == suffix
  }
}
