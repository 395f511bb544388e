/** Reading one credential from the process environment (get_env_variable). */
module Env {
  import opened Wrappers

  /** The characters Python's `str.strip()` removes: exactly those for which
      `str.isspace()` holds. */
  predicate IsSpace(c: char) {
    var n := c as int;
    (0x09 <= n <= 0x0D) || (0x1C <= n <= 0x20) || n == 0x85 || n == 0xA0 || n == 0x1680
    || (0x2000 <= n <= 0x200A) || n == 0x2028 || n == 0x2029 || n == 0x202F
    || n == 0x205F || n == 0x3000
  }

  predicate AllSpace(s: string) {
    forall k :: 0 <= k < |s| ==> IsSpace(s[k])
  }

  /** `s` with its leading whitespace removed. */
  function TrimLeft(s: string): string {
    if s != [] && IsSpace(s[0]) then TrimLeft(s[1..]) else s
  }

  /** `s` with its trailing whitespace removed. */
  function TrimRight(s: string): string {
    if s != [] && IsSpace(s[|s| - 1]) then TrimRight(s[..|s| - 1]) else s
  }

  /** TrimLeft keeps a suffix of `s`; everything it drops is whitespace, and what it
      keeps does not start with whitespace. */
  lemma {:induction false} TrimLeftShape(s: string)
    ensures var r := TrimLeft(s);
      |r| <= |s| && r == s[|s| - |r|..] && AllSpace(s[..|s| - |r|]) && (r != [] ==> !IsSpace(r[0]))
  {
    if s != [] && IsSpace(s[0]) {
      TrimLeftShape(s[1..]);
      var r := TrimLeft(s[1..]);
      assert s[1..][|s| - 1 - |r|..] == s[|s| - |r|..];
      forall k | 0 <= k < |s| - |r| ensures IsSpace(s[k]) {
        if k > 0 {
          assert s[k] == s[1..][..|s| - 1 - |r|][k - 1];
        }
      }
    }
  }

  /** TrimRight keeps a prefix of `s`; everything it drops is whitespace, and what it
      keeps does not end with whitespace. */
  lemma {:induction false} TrimRightShape(s: string)
    ensures var r := TrimRight(s);
      |r| <= |s| && r == s[..|r|] && AllSpace(s[|r|..]) && (r != [] ==> !IsSpace(r[|r| - 1]))
  {
    if s != [] && IsSpace(s[|s| - 1]) {
      var t := s[..|s| - 1];
      TrimRightShape(t);
      var r := TrimRight(t);
      assert t[..|r|] == s[..|r|];
      forall k | 0 <= k < |s| - |r| ensures IsSpace(s[|r|..][k]) {
        if |r| + k < |s| - 1 {
          assert s[|r|..][k] == t[|r|..][k];
        }
      }
    }
  }

  /** Python's `s.strip()`: never longer than `s`, and neither starts nor ends with
      whitespace. */
  function Strip(s: string): (r: string)
    ensures |r| <= |s|
    ensures r != [] ==> !IsSpace(r[0]) && !IsSpace(r[|r| - 1])
  {
    var l := TrimLeft(s);
    TrimLeftShape(s);
    TrimRightShape(l);
    assert TrimRight(l) != [] ==> TrimRight(l)[0] == l[0];
    TrimRight(l)
  }

  /** Where the stripped text begins inside `s`. */
  function StripStart(s: string): nat {
    TrimLeftShape(s);
    |s| - |TrimLeft(s)|
  }

  /** The stripped text is the piece of `s` starting at StripStart(s) with only
      whitespace around it, and it neither starts nor ends with whitespace. */
  lemma StripShape(s: string)
    ensures var r, i := Strip(s), StripStart(s);
      i + |r| <= |s| && r == s[i..i + |r|] && AllSpace(s[..i]) && AllSpace(s[i + |r|..])
    ensures var r := Strip(s); r != [] ==> !IsSpace(r[0]) && !IsSpace(r[|r| - 1])
  {
    var l := TrimLeft(s);
    var r := TrimRight(l);
    TrimLeftShape(s);
    TrimRightShape(l);
    var i := |s| - |l|;
    assert r == s[i..i + |r|];
    assert s[i + |r|..] == l[|r|..];
    if r != [] {
      assert r[0] == l[0];
    }
  }

  /** Stripping leaves nothing exactly when the text is whitespace only. */
  lemma StripEmptyIff(s: string)
    ensures Strip(s) == [] <==> AllSpace(s)
  {
    StripShape(s);
    var r, i := Strip(s), StripStart(s);
    if r == [] {
      assert s == s[..i] + s[i..];
      forall k | 0 <= k < |s| ensures IsSpace(s[k]) {
        assert s[k] == (s[..i] + s[i..])[k];
      }
    } else {
      assert s[i] == r[0];
    }
  }

  /** Text that neither starts nor ends with whitespace is returned unchanged. */
  lemma StripClean(s: string)
    requires s != [] ==> !IsSpace(s[0]) && !IsSpace(s[|s| - 1])
    ensures Strip(s) == s
  {
  }

  /** Stripping twice is stripping once. */
  lemma StripIdempotent(s: string)
    ensures Strip(Strip(s)) == Strip(s)
  {
    StripShape(s);
    StripClean(Strip(s));
  }

  /** What `os.environ.get(name, "")` reads: an unset variable reads as empty text. */
  function Lookup(env: map<string, string>, name: string): string {
    if name in env then env[name] else ""
  }

  function MissingMessage(name: string): string {
    "Environment variable '" + name + "' is not set or empty."
  }

  /** get_env_variable: the stripped value, or an error when nothing but whitespace
      (or nothing at all) is set. */
  function GetEnvVariable(env: map<string, string>, name: string): (r: Result<string>)
    ensures r.Err? ==> r.error == MissingMessage(name)
    ensures r.Ok? ==> r.value != []
  {
    var value := Strip(Lookup(env, name));
    if value == [] then Err(MissingMessage(name)) else Ok(value)
  }

  /** A variable fails to load exactly when it is unset or whitespace only; a loaded
      value is a piece of the raw value with no whitespace at either end. */
  lemma GetEnvVariableSpec(env: map<string, string>, name: string)
    ensures GetEnvVariable(env, name).Err? <==> AllSpace(Lookup(env, name))
    ensures name !in env ==> GetEnvVariable(env, name).Err?
    ensures var r := GetEnvVariable(env, name);
      r.Ok? ==> !IsSpace(r.value[0]) && !IsSpace(r.value[|r.value| - 1])
    ensures var r, raw := GetEnvVariable(env, name), Lookup(env, name);
      r.Ok? ==>
        exists i :: 0 <= i && i + |r.value| <= |raw| && r.value == raw[i..i + |r.value|]
          && AllSpace(raw[..i]) && AllSpace(raw[i + |r.value|..])
  {
    var raw := Lookup(env, name);
    StripEmptyIff(raw);
    StripShape(raw);
    var i, v := StripStart(raw), Strip(raw);
    assert i + |v| <= |raw| && v == raw[i..i + |v|] && AllSpace(raw[..i]) && AllSpace(raw[i + |v|..]);
  }

  /** A value already free of surrounding whitespace is returned as it is. */
  lemma GetEnvVariableClean(env: map<string, string>, name: string)
    requires name in env && env[name] != []
    requires !IsSpace(env[name][0]) && !IsSpace(env[name][|env[name]| - 1])
    ensures GetEnvVariable(env, name) == Ok(env[name])
  {
    StripClean(env[name]);
  }
}
