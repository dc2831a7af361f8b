/**
 * `loadEnv` of scripts/test-cloudinary.ts: the `.env` file is read, split
 * into lines, and every `KEY=value` line is written into `process.env`.
 * Reading the file is a parameter: `None` is a read that failed, which is
 * only logged, so the environment is left as it is.
 */
module EnvLoader {
  import opened Wrappers
  import opened JsText

  datatype Assignment = Assignment(key: string, value: string)

  predicate NoLineTerminator(s: string) {
    forall k :: 0 <= k < |s| ==> !IsLineTerminator(s[k])
  }

  /**
   * `trimmed.match(/^([^=]+)=(.*)$/)`: the text before the first `=`, which
   * must not be empty, and the text after it, in which `.` must match every
   * character.
   */
  function MatchAssignment(t: string): (r: Option<(string, string)>)
    ensures r.Some? <==> '=' in t && FirstIndexOfChar(t, '=') > 0 && NoLineTerminator(t[FirstIndexOfChar(t, '=') + 1..])
    ensures r.Some? ==> '=' !in r.value.0 && r.value.0 != "" && t == r.value.0 + "=" + r.value.1
    ensures r.Some? ==> r.value == (t[..FirstIndexOfChar(t, '=')], t[FirstIndexOfChar(t, '=') + 1..])
  {
    if '=' !in t then None
    else
      var i := FirstIndexOfChar(t, '=');
      if i == 0 || !NoLineTerminator(t[i + 1..]) then None
      else
        assert t == t[..i] + "=" + t[i + 1..];
        Some((t[..i], t[i + 1..]))
  }

  /** `value` wrapped in the quote character `q` at both ends (one quote alone counts) */
  predicate WrappedIn(value: string, q: char) {
    StartsWith(value, [q]) && EndsWith(value, [q])
  }

  /** `value.slice(1, -1)` */
  function SliceInner(value: string): (r: string)
    ensures |value| >= 2 ==> value == value[..1] + r + value[|value| - 1..]
    ensures |value| < 2 ==> r == ""
  {
    if |value| >= 2 then value[1..|value| - 1] else ""
  }

  /** the quotes of a value wrapped in matching double or single quotes removed */
  function Unquote(value: string): (r: string)
    ensures |r| <= |value|
    ensures !WrappedIn(value, '"') && !WrappedIn(value, '\'') ==> r == value
  {
    if WrappedIn(value, '"') || WrappedIn(value, '\'') then SliceInner(value) else value
  }

  /** What a quoted value holds is kept as written, white space and all. */
  lemma UnquoteOfQuoted(q: char, inner: string)
    requires q == '"' || q == '\''
    ensures Unquote([q] + inner + [q]) == inner
  {
    var v := [q] + inner + [q];
    assert StartsWith(v, [q]) by { assert v[..1] == [q]; }
    assert EndsWith(v, [q]) by { assert v[|v| - 1..] == [q]; }
    assert v[1..|v| - 1] == inner;
  }

  /**
   * One line of the file: `None` for an empty line, a comment, or a line the
   * pattern does not match; otherwise the trimmed key and the trimmed,
   * unquoted value.
   */
  function ParseLine(line: string): Option<Assignment> {
    var trimmed := Trim(line);
    if trimmed == "" || StartsWith(trimmed, "#") then None
    else
      match MatchAssignment(trimmed)
      case None => None
      case Some((k, v)) => Some(Assignment(Trim(k), Unquote(Trim(v))))
  }

  /** An assigned key is never empty and holds no `=`. */
  lemma AssignedKeyIsPlain(line: string)
    requires ParseLine(line).Some?
    ensures ParseLine(line).value.key != "" && '=' !in ParseLine(line).value.key
  {
    var trimmed := Trim(line);
    var m := MatchAssignment(trimmed).value;
    var k := m.0;
    assert trimmed[..|k|] == k;
    assert k[0] == trimmed[0];
    TrimOfStartKept(k);
    var tk := Trim(k);
    assert forall j :: 0 <= j < |tk| ==> tk[j] == k[j];
  }

  /**
   * Empty lines and comments are skipped; any other line assigns exactly
   * when it matches the pattern, and then the key and value are the trimmed
   * halves around the first `=`, the value unquoted.
   */
  lemma ParseLineFollowsPattern(line: string)
    ensures Trim(line) == "" || Trim(line)[0] == '#' ==> ParseLine(line).None?
    ensures ParseLine(line).Some? <==>
      (Trim(line) != "" && Trim(line)[0] != '#' && MatchAssignment(Trim(line)).Some?)
    ensures ParseLine(line).Some? ==>
      var m := MatchAssignment(Trim(line)).value;
      ParseLine(line).value == Assignment(Trim(m.0), Unquote(Trim(m.1)))
    ensures Trim(line) != "" ==> (StartsWith(Trim(line), "#") <==> Trim(line)[0] == '#')
  {
    var t := Trim(line);
    assert t != "" ==> (StartsWith(t, "#") <==> t[0] == '#') by {
      if t != "" {
        assert StartsWith(t, "#") ==> t[..1] == "#";
      }
    }
  }

  /** A text starting with non-white space trims to a non-empty prefix of itself. */
  lemma TrimOfStartKept(s: string)
    requires s != [] && !IsJsWhitespace(s[0])
    ensures Trim(s) != "" && Trim(s) == s[..|Trim(s)|]
  {
    assert TrimStart(s) == s;
    TrimEndIsPrefix(s);
  }

  /** A text whose first and last characters are not white space is its own trim. */
  lemma TrimOfUnpadded(s: string)
    requires s != [] && !IsJsWhitespace(s[0]) && !IsJsWhitespace(s[|s| - 1])
    ensures Trim(s) == s
  {
    assert TrimStart(s) == s;
  }

  /** a key that reads back as written */
  predicate PlainKey(k: string) {
    k != "" && '=' !in k && k[0] != '#' && !IsJsWhitespace(k[0]) && !IsJsWhitespace(k[|k| - 1])
  }

  /** a value that reads back as written */
  predicate PlainValue(v: string) {
    NoLineTerminator(v) && Trim(v) == v && !WrappedIn(v, '"') && !WrappedIn(v, '\'')
  }

  /** A line that trims to nothing or to a comment assigns nothing. */
  lemma SkippedLine(line: string)
    requires Trim(line) == "" || StartsWith(Trim(line), "#")
    ensures ParseLine(line).None?
  {
  }

  /** A line the pattern does not match assigns nothing. */
  lemma UnmatchedLine(line: string)
    requires MatchAssignment(Trim(line)).None?
    ensures ParseLine(line).None?
  {
  }

  /** A line that is no comment and matches the pattern assigns its trimmed, unquoted halves. */
  lemma MatchedLine(line: string, k: string, v: string)
    requires Trim(line) != "" && !StartsWith(Trim(line), "#")
    requires MatchAssignment(Trim(line)) == Some((k, v))
    ensures ParseLine(line) == Some(Assignment(Trim(k), Unquote(Trim(v))))
  {
  }

  /** `key=value` with a plain key and a value free of line terminators and trailing white space */
  lemma AssignmentLine(k: string, v: string)
    requires PlainKey(k) && NoLineTerminator(v) && (v == [] || !IsJsWhitespace(v[|v| - 1]))
    ensures ParseLine(k + "=" + v) == Some(Assignment(k, Unquote(Trim(v))))
  {
    var line := k + "=" + v;
    assert Trim(line) == line by {
      assert line[0] == k[0];
      assert line[|line| - 1] == (if v == [] then '=' else v[|v| - 1]);
      TrimOfUnpadded(line);
    }
    MatchOfKeyValue(k, v);
    assert !StartsWith(line, "#") by {
      assert line[0] == k[0];
    }
    assert Trim(k) == k by {
      TrimOfUnpadded(k);
    }
    MatchedLine(line, k, v);
  }

  /** The line an assignment is written as reads back as that assignment. */
  lemma PlainLineParses(k: string, v: string)
    requires PlainKey(k) && PlainValue(v)
    ensures ParseLine(k + "=" + v) == Some(Assignment(k, v))
  {
    assert v == [] || !IsJsWhitespace(v[|v| - 1]) by {
      assert Trim(v) == v;
    }
    AssignmentLine(k, v);
  }

  /** A value in matching quotes reads back as what is between the quotes. */
  lemma QuotedLineParses(k: string, q: char, inner: string)
    requires PlainKey(k) && NoLineTerminator(inner) && (q == '"' || q == '\'')
    ensures ParseLine(k + "=" + [q] + inner + [q]) == Some(Assignment(k, inner))
  {
    var v := [q] + inner + [q];
    assert k + "=" + [q] + inner + [q] == k + "=" + v;
    assert NoLineTerminator(v) by {
      forall j | 0 <= j < |v| ensures !IsLineTerminator(v[j]) {
        if 0 < j < |v| - 1 {
          assert v[j] == inner[j - 1];
        }
      }
    }
    assert v[|v| - 1] == q;
    AssignmentLine(k, v);
    assert Trim(v) == v by {
      assert v[0] == q;
      TrimOfUnpadded(v);
    }
    UnquoteOfQuoted(q, inner);
  }

  /** The pattern splits `key=value` at the `=` after the key. */
  lemma MatchOfKeyValue(k: string, v: string)
    requires k != "" && '=' !in k && NoLineTerminator(v)
    ensures MatchAssignment(k + "=" + v) == Some((k, v))
  {
    var line := k + "=" + v;
    KeyIsFirst(k, v);
    var i := FirstIndexOfChar(line, '=');
    assert line[i + 1..] == v;
    assert NoLineTerminator(line[i + 1..]);
  }

  lemma KeyIsFirst(k: string, v: string)
    requires '=' !in k
    ensures '=' in k + "=" + v && FirstIndexOfChar(k + "=" + v, '=') == |k|
    ensures (k + "=" + v)[..|k|] == k && (k + "=" + v)[|k| + 1..] == v
  {
    FirstIndexOfCharAfter(k, '=', v);
    var line := k + "=" + v;
    assert line[..|k|] == k;
    assert line[|k| + 1..] == v;
  }

  /** `process.env[key] = value` for a line that assigns */
  function Assign(env: map<string, string>, a: Option<Assignment>): map<string, string> {
    match a
    case None => env
    case Some(x) => env[x.key := x.value]
  }

  /** the environment after the lines have been applied in order */
  function ApplyAll(env: map<string, string>, lines: seq<string>): map<string, string>
    decreases |lines|
  {
    if lines == [] then env else Assign(ApplyAll(env, lines[..|lines| - 1]), ParseLine(lines[|lines| - 1]))
  }

  /** Applying one more line */
  lemma ApplyAllStep(env: map<string, string>, lines: seq<string>, i: nat)
    requires i < |lines|
    ensures ApplyAll(env, lines[..i + 1]) == Assign(ApplyAll(env, lines[..i]), ParseLine(lines[i]))
  {
    assert lines[..i + 1][..i] == lines[..i];
  }

  /** `p` assigns `key` */
  predicate AssignsKey(p: Option<Assignment>, key: string) {
    p.Some? && p.value.key == key
  }

  /** A parsed line that does not assign `key` leaves it as it was. */
  lemma AssignOther(env: map<string, string>, p: Option<Assignment>, key: string)
    requires !AssignsKey(p, key)
    ensures key in Assign(env, p) <==> key in env
    ensures key in env ==> Assign(env, p)[key] == env[key]
  {
  }

  /** The last line that assigns a key decides its value: later assignments overwrite earlier ones. */
  lemma {:induction false} LastAssignmentWins(env: map<string, string>, lines: seq<string>, j: nat)
    requires j < |lines| && ParseLine(lines[j]).Some?
    requires forall m :: j < m < |lines| ==> !AssignsKey(ParseLine(lines[m]), ParseLine(lines[j]).value.key)
    ensures var a := ParseLine(lines[j]).value;
      a.key in ApplyAll(env, lines) && ApplyAll(env, lines)[a.key] == a.value
  {
    var n := |lines| - 1;
    var init := lines[..n];
    var a := ParseLine(lines[j]).value;
    var p := ParseLine(lines[n]);
    assert ApplyAll(env, lines) == Assign(ApplyAll(env, init), p);
    if j < n {
      assert init[j] == lines[j];
      forall m | j < m < |init| ensures !AssignsKey(ParseLine(init[m]), a.key) {
        assert init[m] == lines[m];
      }
      LastAssignmentWins(env, init, j);
      AssignOther(ApplyAll(env, init), p, a.key);
    }
  }

  /** A key no line assigns keeps the value it had, or stays absent. */
  lemma {:induction false} UnassignedKeyKept(env: map<string, string>, lines: seq<string>, key: string)
    requires forall m :: 0 <= m < |lines| ==> !AssignsKey(ParseLine(lines[m]), key)
    ensures key in ApplyAll(env, lines) <==> key in env
    ensures key in env ==> ApplyAll(env, lines)[key] == env[key]
  {
    if lines != [] {
      var n := |lines| - 1;
      var init := lines[..n];
      var p := ParseLine(lines[n]);
      assert ApplyAll(env, lines) == Assign(ApplyAll(env, init), p);
      forall m | 0 <= m < |init| ensures !AssignsKey(ParseLine(init[m]), key) {
        assert init[m] == lines[m];
      }
      UnassignedKeyKept(env, init, key);
      AssignOther(ApplyAll(env, init), p, key);
    }
  }

  /** `process.env` */
  class ProcessEnv {
    var vars: map<string, string>

    constructor (vars: map<string, string>)
      ensures this.vars == vars
    {
      this.vars := vars;
    }

    /**
     * `loadEnv`: `content` is what `fs.readFile` gave, `None` when it
     * failed (the failure is logged and nothing is set).
     */
    method LoadEnv(content: Option<string>)
      modifies this
      ensures content.None? ==> vars == old(vars)
      ensures content.Some? ==> vars == ApplyAll(old(vars), Split(content.value, '\n'))
    {
      if content.None? {
        return;
      }
      var lines := Split(content.value, '\n');
      assert lines[..0] == [];
      assert vars == ApplyAll(old(vars), lines[..0]);
      var i := 0;
      while i < |lines|
        invariant 0 <= i <= |lines|
        invariant vars == ApplyAll(old(vars), lines[..i])
      {
        ApplyAllStep(old(vars), lines, i);
        ghost var before := vars;
        var trimmed := Trim(lines[i]);
        if trimmed == "" || StartsWith(trimmed, "#") {
          SkippedLine(lines[i]);
        } else {
          var m := MatchAssignment(trimmed);
          if m.None? {
            UnmatchedLine(lines[i]);
          } else {
            var key := Trim(m.value.0);
            var value := Trim(m.value.1);
            if WrappedIn(value, '"') || WrappedIn(value, '\'') {
              value := SliceInner(value);
            }
            MatchedLine(lines[i], m.value.0, m.value.1);
            vars := vars[key := value];
          }
        }
        assert vars == Assign(before, ParseLine(lines[i]));
        assert vars == ApplyAll(old(vars), lines[..i + 1]);
        i := i + 1;
      }
      assert lines[..|lines|] == lines;
    }
  }
}
