/** How an identifier becomes the name of the environment variable that
    overrides it: `"{app_id}_{identifier}"` upper-cased, every run of
    space, hyphen or dot replaced by one underscore, then every run of
    underscores squeezed to one. */
module EnvVarNames {
  import opened Text

  /** The characters of the regular expression `[ \-\.]`. */
  predicate IsSeparator(c: char) {
    c == ' ' || c == '-' || c == '.'
  }

  /** A separator or an underscore: after both passes, any run of these is one `_`. */
  predicate IsJoiner(c: char) {
    IsSeparator(c) || c == '_'
  }

  /** `gsub!(/[ \-\.]+/, '_')`: each maximal run of separators becomes `_`.
      Defined from the right so that a left-to-right loop can follow it. */
  function ReplaceSeparatorRuns(s: string): string
    decreases |s|
  {
    if s == [] then []
    else
      var p, c := s[..|s| - 1], s[|s| - 1];
      if IsSeparator(c) then
        if p != [] && IsSeparator(p[|p| - 1]) then ReplaceSeparatorRuns(p)
        else ReplaceSeparatorRuns(p) + ['_']
      else ReplaceSeparatorRuns(p) + [c]
  }

  /** `gsub!(/__+/, '_')`: each run of two or more underscores becomes one. */
  function SqueezeUnderscores(s: string): string
    decreases |s|
  {
    if s == [] then []
    else
      var p, c := s[..|s| - 1], s[|s| - 1];
      if c == '_' && p != [] && p[|p| - 1] == '_' then SqueezeUnderscores(p)
      else SqueezeUnderscores(p) + [c]
  }

  /** The name as lib/waph.rb computes it: upcase, then the two substitutions. */
  function EnvVarName(appId: string, identifier: string): string {
    SqueezeUnderscores(ReplaceSeparatorRuns(Upcase(appId + "_" + identifier)))
  }

  /** Independent one-pass reference: every maximal run of joiners becomes `_`. */
  function JoinRuns(s: string): string
    decreases |s|
  {
    if s == [] then []
    else
      var p, c := s[..|s| - 1], s[|s| - 1];
      if IsJoiner(c) then
        if p != [] && IsJoiner(p[|p| - 1]) then JoinRuns(p)
        else JoinRuns(p) + ['_']
      else JoinRuns(p) + [c]
  }

  /** What an identifier character stands for in the name: joiners are all
      alike, letters are compared after upcasing. */
  function Canon(c: char): char {
    if IsJoiner(c) then '_' else ToUpper(c)
  }

  predicate NoDoubleUnderscore(s: string) {
    forall i :: 0 <= i < |s| - 1 ==> !(s[i] == '_' && s[i + 1] == '_')
  }

  // ---- Lemmas about the passes ------------------------------------------

  lemma {:induction false} ReplaceSeparatorRunsLast(s: string)
    requires s != []
    ensures ReplaceSeparatorRuns(s) != []
    ensures var r := ReplaceSeparatorRuns(s);
      (r[|r| - 1] == '_' <==> IsJoiner(s[|s| - 1]))
    decreases |s|
  {
    var p, c := s[..|s| - 1], s[|s| - 1];
    if IsSeparator(c) && p != [] && IsSeparator(p[|p| - 1]) {
      ReplaceSeparatorRunsLast(p);
    }
  }

  lemma {:induction false} SqueezeAppend(x: string, c: char)
    ensures SqueezeUnderscores(x + [c]) ==
      if c == '_' && x != [] && x[|x| - 1] == '_' then SqueezeUnderscores(x)
      else SqueezeUnderscores(x) + [c]
  {
    assert (x + [c])[..|x|] == x;
  }

  /** The two substitutions of the source together do what the one-pass
      reference does. */
  lemma {:induction false} TwoPassesAreJoinRuns(s: string)
    ensures SqueezeUnderscores(ReplaceSeparatorRuns(s)) == JoinRuns(s)
    decreases |s|
  {
    if s != [] {
      var p, c := s[..|s| - 1], s[|s| - 1];
      TwoPassesAreJoinRuns(p);
      var rp := ReplaceSeparatorRuns(p);
      if p != [] { ReplaceSeparatorRunsLast(p); }
      if IsSeparator(c) {
        if !(p != [] && IsSeparator(p[|p| - 1])) {
          SqueezeAppend(rp, '_');
        }
      } else {
        SqueezeAppend(rp, c);
      }
    }
  }

  lemma {:induction false} JoinRunsLast(s: string)
    requires s != []
    ensures JoinRuns(s) != []
    ensures var r := JoinRuns(s); (r[|r| - 1] == '_' <==> IsJoiner(s[|s| - 1]))
    decreases |s|
  {
    var p, c := s[..|s| - 1], s[|s| - 1];
    if IsJoiner(c) && p != [] && IsJoiner(p[|p| - 1]) {
      JoinRunsLast(p);
    }
  }

  lemma {:induction false} JoinRunsShape(s: string)
    ensures NoDoubleUnderscore(JoinRuns(s))
    ensures forall i :: 0 <= i < |JoinRuns(s)| ==> !IsSeparator(JoinRuns(s)[i])
    decreases |s|
  {
    if s != [] {
      var p := s[..|s| - 1];
      JoinRunsShape(p);
      if p != [] { JoinRunsLast(p); }
    }
  }

  lemma {:induction false} JoinRunsCanonical(s1: string, s2: string)
    requires |s1| == |s2|
    requires forall i :: 0 <= i < |s1| ==> (IsJoiner(s1[i]) <==> IsJoiner(s2[i]))
    requires forall i :: 0 <= i < |s1| && !IsJoiner(s1[i]) ==> s1[i] == s2[i]
    ensures JoinRuns(s1) == JoinRuns(s2)
    decreases |s1|
  {
    if s1 != [] {
      JoinRunsCanonical(s1[..|s1| - 1], s2[..|s2| - 1]);
    }
  }

  // ---- Properties of the environment variable name ----------------------

  /** The name is the one-pass normalisation of the upcased `"{app_id}_{identifier}"`. */
  lemma EnvVarNameIsJoinRuns(appId: string, identifier: string)
    ensures EnvVarName(appId, identifier) == JoinRuns(Upcase(appId + "_" + identifier))
  {
    TwoPassesAreJoinRuns(Upcase(appId + "_" + identifier));
  }

  /** The name never holds `__`, a space, a hyphen, a dot or a lower-case ASCII letter. */
  lemma EnvVarNameShape(appId: string, identifier: string)
    ensures var r := EnvVarName(appId, identifier);
      NoDoubleUnderscore(r) &&
      forall i :: 0 <= i < |r| ==> !IsSeparator(r[i]) && !('a' <= r[i] <= 'z')
  {
    var u := Upcase(appId + "_" + identifier);
    EnvVarNameIsJoinRuns(appId, identifier);
    JoinRunsShape(u);
    NoLowerCase(u);
  }

  lemma {:induction false} NoLowerCase(u: string)
    requires forall i :: 0 <= i < |u| ==> !('a' <= u[i] <= 'z')
    ensures forall i :: 0 <= i < |JoinRuns(u)| ==> !('a' <= JoinRuns(u)[i] <= 'z')
    decreases |u|
  {
    if u != [] { NoLowerCase(u[..|u| - 1]); }
  }

  /** Identifiers that differ only in how runs are joined (space, hyphen,
      dot, underscore) or in letter case name the same variable. */
  lemma SpellingInsensitive(appId: string, id1: string, id2: string)
    requires |id1| == |id2|
    requires forall i :: 0 <= i < |id1| ==> Canon(id1[i]) == Canon(id2[i])
    ensures EnvVarName(appId, id1) == EnvVarName(appId, id2)
  {
    var u1, u2 := Upcase(appId + "_" + id1), Upcase(appId + "_" + id2);
    var pre := |appId + "_"|;
    forall i | 0 <= i < |u1|
      ensures (IsJoiner(u1[i]) <==> IsJoiner(u2[i])) && (!IsJoiner(u1[i]) ==> u1[i] == u2[i])
    {
      if i >= pre {
        assert Canon(id1[i - pre]) == Canon(id2[i - pre]);
      }
    }
    JoinRunsCanonical(u1, u2);
    EnvVarNameIsJoinRuns(appId, id1);
    EnvVarNameIsJoinRuns(appId, id2);
  }

  lemma UpcaseConcat(a: string, b: string)
    ensures Upcase(a + b) == Upcase(a) + Upcase(b)
  {
  }

  /** `log-file`, `log file` and `log.file` name the same variable as the
      `log_file` identifier the log lookup uses. */
  lemma LogFileSpellings(appId: string)
    ensures EnvVarName(appId, "log-file") == EnvVarName(appId, "log_file")
    ensures EnvVarName(appId, "log file") == EnvVarName(appId, "log_file")
    ensures EnvVarName(appId, "log.file") == EnvVarName(appId, "log_file")
  {
    SpellingInsensitive(appId, "log-file", "log_file");
    SpellingInsensitive(appId, "log file", "log_file");
    SpellingInsensitive(appId, "log.file", "log_file");
  }

  /** A string that is already normalised is left as it is. */
  lemma {:induction false} JoinRunsFixpoint(s: string)
    requires NoDoubleUnderscore(s)
    requires forall i :: 0 <= i < |s| ==> !IsSeparator(s[i])
    ensures JoinRuns(s) == s
    decreases |s|
  {
    if s != [] {
      var p := s[..|s| - 1];
      JoinRunsFixpoint(p);
    }
  }

  /** Normalising twice is normalising once. */
  lemma JoinRunsIdempotent(s: string)
    ensures JoinRuns(JoinRuns(s)) == JoinRuns(s)
  {
    JoinRunsShape(s);
    JoinRunsFixpoint(JoinRuns(s));
  }

  /** For an application id without joiners the log variable is `{APPID}_LOG_FILE`. */
  lemma LogFileVariable(appId: string)
    requires forall i :: 0 <= i < |appId| ==> !IsJoiner(appId[i])
    ensures EnvVarName(appId, "log_file") == Upcase(appId) + "_LOG_FILE"
  {
    var a := Upcase(appId);
    assert forall i :: 0 <= i < |a| ==> !IsJoiner(a[i]);
    assert appId + "_" + "log_file" == appId + "_log_file";
    UpcaseConcat(appId, "_log_file");
    assert Upcase("_log_file") == "_LOG_FILE";
    var t := a + "_LOG_FILE";
    forall i | 0 <= i < |t| ensures !IsSeparator(t[i]) && (t[i] == '_' ==> i == |a| || i == |a| + 4) {
      if i >= |a| { assert t[i] == "_LOG_FILE"[i - |a|]; }
    }
    JoinRunsFixpoint(t);
    EnvVarNameIsJoinRuns(appId, "log_file");
  }
}
