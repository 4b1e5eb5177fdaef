/**
 * Environment-variable expansion of configuration values (`expandEnvVars` and
 * `replaceEnvVars` in src/config/index.ts).
 *
 * `expandEnvVars` runs two global regular-expression replacements one after
 * the other: first `\$\{([^}]+)\}` (the brace form `${NAME}`), then
 * `\$([A-Z_][A-Z0-9_]*)` (the bare form `$NAME`) over the result of the first.
 * A global replacement tries the pattern at the current position; on a match
 * it emits the replacement and resumes right after the match, otherwise it
 * copies one character and moves on. Neither pattern looks behind, so each pass
 * is a recursion over the remaining suffix.
 */
module EnvExpand {
  import opened Wrappers
  import opened JsValues

  /** The process environment, variable name to value. */
  type Env = map<string, string>

  /**
   * `process.env[key] || ''`: the bound value, or the empty string when the
   * name is unbound. An unbound name and a name bound to `''` look the same.
   */
  function Lookup(env: Env, name: string): (r: string)
    ensures r == "" <==> name !in env || env[name] == ""
    ensures r != "" ==> name in env && r == env[name]
  {
    if name in env then env[name] else ""
  }

  /** The first position of `c` in `s`, if any. */
  function IndexOf(s: string, c: char): (r: Option<nat>)
    ensures r.Some? ==> r.value < |s| && s[r.value] == c && c !in s[..r.value]
    ensures r.None? <==> c !in s
  {
    if s == [] then None
    else if s[0] == c then Some(0)
    else match IndexOf(s[1..], c)
      case None => None
      case Some(j) =>
        assert s[..j + 1] == [s[0]] + s[1..][..j];
        Some(j + 1)
  }

  // ---------------------------------------------------------------------------
  // The brace form: /\$\{([^}]+)\}/g
  // ---------------------------------------------------------------------------

  /**
   * The match of `\$\{([^}]+)\}` at the start of `s`, as the captured name and
   * the length of the match. `[^}]+` can only stop at the first `}`, so the
   * name is everything up to the first closing brace, and must not be empty.
   */
  function BraceRef(s: string): (r: Option<(string, nat)>)
    ensures r.Some? ==>
      && r.value.1 == |r.value.0| + 3 <= |s|
      && s[..r.value.1] == "${" + r.value.0 + "}"
      && r.value.0 != [] && '}' !in r.value.0
  {
    if |s| >= 2 && s[0] == '$' && s[1] == '{' then
      match IndexOf(s[2..], '}')
      case None => None
      case Some(j) =>
        if j == 0 then None
        else
          assert s[..j + 3] == "${" + s[2..2 + j] + "}";
          Some((s[2..2 + j], j + 3))
    else None
  }

  /** The brace form matches exactly the strings `${NAME}…` with a non-empty NAME free of `}`. */
  lemma BraceRefIff(s: string, name: string)
    ensures BraceRef(s) == Some((name, |name| + 3)) <==>
      (|name| + 3 <= |s| && s[..|name| + 3] == "${" + name + "}" && name != [] && '}' !in name)
  {
    if |name| + 3 <= |s| && s[..|name| + 3] == "${" + name + "}" && name != [] && '}' !in name {
      var p := s[..|name| + 3];
      assert forall i :: 0 <= i < |name| ==> p[i + 2] == name[i];
      assert p[|name| + 2] == '}';
      assert s[0] == p[0] == '$' && s[1] == p[1] == '{';
      assert s[2..][..|name|] == name;
      assert s[2..][|name|] == '}';
      var j := IndexOf(s[2..], '}');
      assert j == Some(|name|);
      assert s[2..2 + |name|] == name;
    }
  }

  /** The first pass: every `${NAME}` replaced, left to right, by the variable's value. */
  function ExpandBraces(s: string, env: Env): string
    decreases |s|
  {
    if s == [] then []
    else match BraceRef(s)
      case Some((name, n)) => Lookup(env, name) + ExpandBraces(s[n..], env)
      case None => [s[0]] + ExpandBraces(s[1..], env)
  }

  /** Without a `$` or without a `}` there is nothing to match: the first pass changes nothing. */
  lemma {:induction false} ExpandBracesUnchanged(s: string, env: Env)
    requires '$' !in s || '}' !in s
    ensures ExpandBraces(s, env) == s
    decreases |s|
  {
    if s != [] {
      match BraceRef(s)
      case Some(_) =>
        assert false;
      case None =>
        ExpandBracesUnchanged(s[1..], env);
        assert s == [s[0]] + s[1..];
    }
  }

  /** A reference `${NAME}` at the front is replaced by the value and the pass goes on after it. */
  lemma ExpandBracesRef(name: string, rest: string, env: Env)
    requires name != [] && '}' !in name
    ensures ExpandBraces("${" + name + "}" + rest, env) == Lookup(env, name) + ExpandBraces(rest, env)
  {
    var s := "${" + name + "}" + rest;
    BraceRefIff(s, name);
    assert s[|name| + 3..] == rest;
  }

  /** Text without `$` is copied through, and the pass resumes unchanged after it. */
  lemma {:induction false} ExpandBracesPrefix(a: string, b: string, env: Env)
    requires '$' !in a
    ensures ExpandBraces(a + b, env) == a + ExpandBraces(b, env)
    decreases |a|
  {
    if a != [] {
      var s := a + b;
      assert s[0] == a[0] && s[1..] == a[1..] + b;
      assert BraceRef(s).None?;
      assert ExpandBraces(s, env) == [a[0]] + ExpandBraces(a[1..] + b, env);
      ExpandBracesPrefix(a[1..], b, env);
      assert a == [a[0]] + a[1..];
    } else {
      assert a + b == b;
    }
  }

  // ---------------------------------------------------------------------------
  // The bare form: /\$([A-Z_][A-Z0-9_]*)/g
  // ---------------------------------------------------------------------------

  predicate IsNameStart(c: char) { 'A' <= c <= 'Z' || c == '_' }

  predicate IsNameChar(c: char) { IsNameStart(c) || '0' <= c <= '9' }

  /** A name the bare form can capture: `[A-Z_][A-Z0-9_]*`. */
  predicate IsBareName(name: string)
  {
    name != [] && IsNameStart(name[0]) && forall i :: 0 <= i < |name| ==> IsNameChar(name[i])
  }

  /** The length of the longest prefix of `s` made of name characters. */
  function NameRun(s: string): (n: nat)
    ensures n <= |s|
    ensures forall i :: 0 <= i < n ==> IsNameChar(s[i])
    ensures n < |s| ==> !IsNameChar(s[n])
  {
    if s != [] && IsNameChar(s[0]) then 1 + NameRun(s[1..]) else 0
  }

  /**
   * The match of `\$([A-Z_][A-Z0-9_]*)` at the start of `s`, as the captured
   * name and the length of the match. The identifier is greedy: the match
   * never stops in front of another name character.
   */
  function BareRef(s: string): (r: Option<(string, nat)>)
    ensures r.Some? ==>
      && r.value.1 == |r.value.0| + 1 <= |s|
      && s[..r.value.1] == "$" + r.value.0
      && IsBareName(r.value.0)
      && (r.value.1 == |s| || !IsNameChar(s[r.value.1]))
  {
    if |s| >= 2 && s[0] == '$' && IsNameStart(s[1]) then
      var k := 1 + NameRun(s[2..]);
      var name := s[1..1 + k];
      assert name[0] == s[1];
      assert forall i :: 1 <= i < k ==> name[i] == s[2..][i - 1];
      assert IsBareName(name);
      assert s[..k + 1] == "$" + name;
      Some((name, k + 1))
    else None
  }

  /** The bare form matches exactly the strings `$NAME…` whose NAME is not followed by a name character. */
  lemma BareRefIff(s: string, name: string)
    ensures BareRef(s) == Some((name, |name| + 1)) <==>
      (|name| + 1 <= |s| && s[..|name| + 1] == "$" + name && IsBareName(name)
       && (|name| + 1 == |s| || !IsNameChar(s[|name| + 1])))
  {
    if |name| + 1 <= |s| && s[..|name| + 1] == "$" + name && IsBareName(name)
       && (|name| + 1 == |s| || !IsNameChar(s[|name| + 1])) {
      assert s[0] == '$' && s[1] == name[0];
      var k := NameRun(s[2..]);
      assert forall i :: 0 <= i < |name| - 1 ==> s[2..][i] == name[i + 1];
      assert |name| - 1 < |s[2..]| ==> s[2..][|name| - 1] == s[|name| + 1];
      assert k == |name| - 1;
      assert s[1..1 + |name|] == name;
    }
  }

  /** The second pass: every `$NAME`, left to right, replaced by the variable's value. */
  function ExpandBare(s: string, env: Env): string
    decreases |s|
  {
    if s == [] then []
    else match BareRef(s)
      case Some((name, n)) => Lookup(env, name) + ExpandBare(s[n..], env)
      case None => [s[0]] + ExpandBare(s[1..], env)
  }

  /** Without a `$` the second pass changes nothing. */
  lemma {:induction false} ExpandBareUnchanged(s: string, env: Env)
    requires '$' !in s
    ensures ExpandBare(s, env) == s
  {
    ExpandBarePrefix(s, [], env);
    assert s + [] == s;
  }

  /** A reference `$NAME` at the front, not followed by a name character, is replaced by the value. */
  lemma ExpandBareRef(name: string, rest: string, env: Env)
    requires IsBareName(name)
    requires rest == [] || !IsNameChar(rest[0])
    ensures ExpandBare("$" + name + rest, env) == Lookup(env, name) + ExpandBare(rest, env)
  {
    var s := "$" + name + rest;
    assert s[..|name| + 1] == "$" + name;
    assert |name| + 1 < |s| ==> s[|name| + 1] == rest[0];
    BareRefIff(s, name);
    assert s[|name| + 1..] == rest;
  }

  /** Text without `$` is copied through, and the pass resumes unchanged after it. */
  lemma {:induction false} ExpandBarePrefix(a: string, b: string, env: Env)
    requires '$' !in a
    ensures ExpandBare(a + b, env) == a + ExpandBare(b, env)
    decreases |a|
  {
    if a != [] {
      var s := a + b;
      assert s[0] == a[0] && s[1..] == a[1..] + b;
      assert BareRef(s).None?;
      ExpandBarePrefix(a[1..], b, env);
      assert a == [a[0]] + a[1..];
    } else {
      assert a + b == b;
    }
  }

  // ---------------------------------------------------------------------------
  // expandEnvVars and replaceEnvVars
  // ---------------------------------------------------------------------------

  /**
   * Both passes on a string: the brace form first, then the bare form over its
   * result. A string with no `$` is returned unchanged.
   */
  function ExpandString(s: string, env: Env): (r: string)
    ensures '$' !in s ==> r == s
  {
    if '$' in s then ExpandBare(ExpandBraces(s, env), env)
    else
      ExpandBracesUnchanged(s, env);
      ExpandBareUnchanged(s, env);
      ExpandBare(ExpandBraces(s, env), env)
  }

  /**
   * `expandEnvVars`: only a string is expanded; any other value is coerced
   * with `String(value)` and not expanded.
   */
  function ExpandEnvVars(v: JsValue, env: Env): (r: string)
    ensures v.JsString? ==> r == ExpandString(v.s, env)
    ensures !v.JsString? ==> r == ToJsString(v)
  {
    match v
    case JsString(s) => ExpandString(s, env)
    case _ => ToJsString(v)
  }

  /** A trailing `$NAME` after text without `$` is replaced and the text kept. */
  lemma ExpandBareTrailingRef(p: string, name: string, env: Env)
    requires '$' !in p && IsBareName(name)
    ensures ExpandBare(p + "$" + name, env) == p + Lookup(env, name)
  {
    ExpandBarePrefix(p, "$" + name, env);
    ExpandBareRef(name, [], env);
    assert "$" + name + [] == "$" + name;
    assert p + "$" + name == p + ("$" + name);
  }

  /** A bare reference `$Y` holds no `}`, so the first pass leaves it alone. */
  lemma BareRefUnbraced(y: string, env: Env)
    requires IsBareName(y)
    ensures ExpandBraces("$" + y, env) == "$" + y
  {
    var r := "$" + y;
    assert forall i :: 0 < i < |r| ==> r[i] == y[i - 1];
    assert '}' !in r;
    ExpandBracesUnchanged(r, env);
  }

  /** The first pass leaves `<sep>$Y` alone when the separator holds no `$`. */
  lemma ExpandBracesKeepsBareRef(sep: string, y: string, env: Env)
    requires '$' !in sep && IsBareName(y)
    ensures ExpandBraces(sep + "$" + y, env) == sep + "$" + y
  {
    var r := "$" + y;
    BareRefUnbraced(y, env);
    ExpandBracesPrefix(sep, r, env);
    assert sep + "$" + y == sep + r;
  }

  /**
   * Both forms in one value, `${X}<sep>$Y`: the brace reference is resolved
   * first, then the bare one. When X's value holds no `$`, the result is
   * X's value, the separator, Y's value.
   */
  lemma ExpandBraceThenBare(x: string, sep: string, y: string, env: Env)
    requires x != [] && '}' !in x && IsBareName(y)
    requires '$' !in sep
    requires '$' !in Lookup(env, x)
    ensures ExpandString("${" + x + "}" + sep + "$" + y, env) == Lookup(env, x) + sep + Lookup(env, y)
  {
    var s := "${" + x + "}" + sep + "$" + y;
    var tail := sep + "$" + y;
    var v := Lookup(env, x);
    assert ExpandBraces(s, env) == (v + sep) + "$" + y by {
      assert s == "${" + x + "}" + tail;
      ExpandBracesKeepsBareRef(sep, y, env);
      ExpandBracesRef(x, tail, env);
      assert v + tail == (v + sep) + "$" + y;
    }
    ExpandBareTrailingRef(v + sep, y, env);
  }

  /** `"${FOO}-$BAR"` with FOO=a and BAR=b expands to `"a-b"`, for any such a without `$`. */
  lemma ExpandBothForms(a: string, b: string, env: Env)
    requires env == map["FOO" := a, "BAR" := b] && '$' !in a
    ensures ExpandString("${FOO}-$BAR", env) == a + "-" + b
  {
    assert "${FOO}-$BAR" == "${" + "FOO" + "}" + "-" + "$" + "BAR";
    ExpandBraceThenBare("FOO", "-", "BAR", env);
  }

  /** A lone `${NAME}` becomes the variable's value (when that value holds no `$` itself). */
  lemma ExpandLoneRef(name: string, env: Env)
    requires name != [] && '}' !in name && '$' !in Lookup(env, name)
    ensures ExpandString("${" + name + "}", env) == Lookup(env, name)
  {
    var s := "${" + name + "}";
    ExpandBracesRef(name, [], env);
    assert s + [] == s;
    assert ExpandBraces([], env) == [];
    assert ExpandBraces(s, env) == Lookup(env, name);
    ExpandBareUnchanged(Lookup(env, name), env);
  }

  /** An unbound `${MISSING}` expands to the empty string. */
  lemma ExpandUnbound(env: Env)
    requires "MISSING" !in env
    ensures ExpandString("${MISSING}", env) == ""
  {
    ExpandLoneRef("MISSING", env);
    assert "${MISSING}" == "${" + "MISSING" + "}";
  }

  /**
   * A value substituted by the brace pass is scanned again by the bare pass:
   * when X is bound to `$Y`, `${X}` ends up as the value of Y.
   */
  lemma BraceValueRescanned(x: string, y: string, env: Env)
    requires x != [] && '}' !in x && IsBareName(y)
    requires Lookup(env, x) == "$" + y
    ensures ExpandString("${" + x + "}", env) == Lookup(env, y)
  {
    var s := "${" + x + "}";
    ExpandBracesRef(x, [], env);
    assert s + [] == s;
    assert ExpandBraces([], env) == [];
    assert ExpandBraces(s, env) == "$" + y + [];
    ExpandBareRef(y, [], env);
  }

  /**
   * `replaceEnvVars` with the evidently intended result: a new record with the
   * same keys, string values expanded and every other value coerced to a string.
   */
  method ReplaceEnvVars(record: map<string, JsValue>, env: Env) returns (res: map<string, string>)
    ensures res.Keys == record.Keys
    ensures forall k :: k in record && record[k].JsString? ==> res[k] == ExpandString(record[k].s, env)
    ensures forall k :: k in record && !record[k].JsString? ==> res[k] == ToJsString(record[k])
  {
    res := map[];
    var todo := record.Keys;
    while todo != {}
      invariant todo <= record.Keys
      invariant res.Keys == record.Keys - todo
      invariant forall k :: k in res ==> res[k] == ExpandEnvVars(record[k], env)
      decreases todo
    {
      var key :| key in todo;
      var value := record[key];
      if value.JsString? {
        res := res[key := ExpandEnvVars(value, env)];
      } else {
        res := res[key := ToJsString(value)];
      }
      todo := todo - {key};
    }
  }

  /** `{A: "${FOO}", B: 5}` with FOO=a becomes `{A: a, B: "5"}`, for any a without `$`. */
  method ReplaceEnvVarsExample(a: string, env: Env) returns (res: map<string, string>)
    requires env == map["FOO" := a] && '$' !in a
    ensures res == map["A" := a, "B" := "5"]
  {
    var ref := "${" + "FOO" + "}";
    ExpandLoneRef("FOO", env);
    assert ToJsString(JsNumber(5)) == "5";
    res := ReplaceEnvVars(map["A" := JsString(ref), "B" := JsNumber(5)], env);
    assert res.Keys == {"A", "B"};
  }

  // ---------------------------------------------------------------------------
  // replaceEnvVars as written: the result is a plain object literal `{}`
  // ---------------------------------------------------------------------------

  /**
   * `obj[key] = value` on a plain object whose values are strings: the key
   * `__proto__` names the prototype accessor, whose setter ignores a string,
   * so that assignment leaves the object as it was.
   */
  function AssignProperty(obj: map<string, string>, key: string, value: string): (r: map<string, string>)
    ensures key == "__proto__" ==> r == obj
    ensures key != "__proto__" ==> r.Keys == obj.Keys + {key} && r[key] == value
    ensures forall k :: k in obj && k != key ==> k in r && r[k] == obj[k]
  {
    if key == "__proto__" then obj else obj[key := value]
  }

  /** `replaceEnvVars` as written: it fills `{}` by property assignment. */
  method ReplaceEnvVarsAsWritten(record: map<string, JsValue>, env: Env) returns (res: map<string, string>)
    ensures res.Keys == record.Keys - {"__proto__"}
    ensures forall k :: k in res ==> res[k] == ExpandEnvVars(record[k], env)
  {
    res := map[];
    var todo := record.Keys;
    while todo != {}
      invariant todo <= record.Keys
      invariant res.Keys == record.Keys - todo - {"__proto__"}
      invariant forall k :: k in res ==> res[k] == ExpandEnvVars(record[k], env)
      decreases todo
    {
      var key :| key in todo;
      var value := record[key];
      if value.JsString? {
        res := AssignProperty(res, key, ExpandEnvVars(value, env));
      } else {
        res := AssignProperty(res, key, ToJsString(value));
      }
      todo := todo - {key};
    }
  }

  /** A record parsed from JSON may own the key `__proto__`; as written, that entry is lost. */
  method ProtoKeyDropped() returns (record: map<string, JsValue>, res: map<string, string>)
    ensures "__proto__" in record && res.Keys != record.Keys
  {
    record := map["__proto__" := JsString("x")];
    res := ReplaceEnvVarsAsWritten(record, map[]);
  }
}
