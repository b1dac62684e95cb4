/**
 * The two JavaScript string operations the controller relies on:
 * `String.prototype.trim` and the `length` property, which counts
 * UTF-16 code units rather than characters.
 */
module JsString {
  import opened Wrappers

  /** The characters `trim` removes: ECMAScript's WhiteSpace and LineTerminator code points. */
  predicate IsTrimmable(c: char)
  {
    var n := c as int;
    n == 0x09 || n == 0x0A || n == 0x0B || n == 0x0C || n == 0x0D
    || n == 0x20 || n == 0xA0 || n == 0x1680
    || (0x2000 <= n <= 0x200A)
    || n == 0x2028 || n == 0x2029 || n == 0x202F || n == 0x205F
    || n == 0x3000 || n == 0xFEFF
  }

  predicate AllTrimmable(s: string)
  {
    forall i :: 0 <= i < |s| ==> IsTrimmable(s[i])
  }

  /** Drops the leading run of trimmable characters: the result is the suffix that follows it. */
  function TrimStart(s: string): (r: string)
    ensures |r| <= |s| && r == s[|s| - |r|..]
    ensures AllTrimmable(s[..|s| - |r|])
    ensures r != [] ==> !IsTrimmable(r[0])
  {
    if s != [] && IsTrimmable(s[0]) then TrimStart(s[1..]) else s
  }

  /** Drops the trailing run of trimmable characters: the result is the prefix before it. */
  function TrimEnd(s: string): (r: string)
    ensures |r| <= |s| && r == s[..|r|]
    ensures AllTrimmable(s[|r|..])
    ensures r != [] ==> !IsTrimmable(r[|r| - 1])
  {
    if s != [] && IsTrimmable(s[|s| - 1]) then TrimEnd(s[..|s| - 1]) else s
  }

  /**
   * `s.trim()`: what remains of `s` once a leading and a trailing run of
   * trimmable characters are cut off; it neither starts nor ends with one.
   */
  function Trim(s: string): (r: string)
    ensures |r| <= |s|
    ensures r != [] ==> !IsTrimmable(r[0]) && !IsTrimmable(r[|r| - 1])
  {
    var t := TrimStart(s);
    var r := TrimEnd(t);
    assert r != [] ==> r[0] == t[0];
    r
  }

  /** The characters `Trim` cuts off are trimmable runs at the two ends of `s`; `i` is where the kept part starts. */
  lemma TrimCutsRuns(s: string) returns (i: nat)
    ensures i + |Trim(s)| <= |s| && Trim(s) == s[i..i + |Trim(s)|]
    ensures AllTrimmable(s[..i]) && AllTrimmable(s[i + |Trim(s)|..])
  {
    var t := TrimStart(s);
    var r := TrimEnd(t);
    i := |s| - |t|;
    SuffixSlices(s, i, |r|);
  }

  lemma SuffixSlices(s: string, i: nat, k: nat)
    requires i + k <= |s|
    ensures s[i..][..k] == s[i..i + k] && s[i..][k..] == s[i + k..]
  {
  }

  /** `s.trim()` is the empty string exactly when every character of `s` is trimmable. */
  lemma TrimEmptyIff(s: string)
    ensures Trim(s) == [] <==> AllTrimmable(s)
  {
    var t := TrimStart(s);
    var k := |s| - |t|;
    if Trim(s) == [] {
      // TrimEnd(t) == [] makes all of t trimmable, yet a non-empty t starts with a kept character.
      assert AllTrimmable(t[0..]);
      assert t == [];
      assert s[..k] == s;
    }
  }

  lemma TrimStartStep(s: string)
    requires s != [] && IsTrimmable(s[0])
    ensures TrimStart(s) == TrimStart(s[1..])
  {
  }

  lemma TrimEndStep(s: string)
    requires s != [] && IsTrimmable(s[|s| - 1])
    ensures TrimEnd(s) == TrimEnd(s[..|s| - 1])
  {
  }

  lemma TrimStartKeeps(s: string)
    requires s != [] && !IsTrimmable(s[0])
    ensures TrimStart(s) == s
  {
  }

  lemma TrimEndKeeps(s: string)
    requires s != [] && !IsTrimmable(s[|s| - 1])
    ensures TrimEnd(s) == s
  {
  }

  /**
   * The controller's `!v?.trim()`: true when the field is absent or null
   * (optional chaining yields undefined) or when it trims to "", which is falsy.
   */
  predicate IsBlank(v: Option<string>)
  {
    v.None? || Trim(v.value) == []
  }

  /** A present field is blank exactly when it is empty or whitespace-only. */
  lemma BlankIffWhitespaceOnly(s: string)
    ensures IsBlank(Some(s)) <==> AllTrimmable(s)
  {
    TrimEmptyIff(s);
  }

  /** UTF-16 code units needed for one code point: two for a supplementary-plane character. */
  function Utf16Units(c: char): nat
  {
    if c as int < 0x1_0000 then 1 else 2
  }

  /** `s.length`: the number of UTF-16 code units of `s`. */
  function Utf16Length(s: string): (n: nat)
    ensures |s| <= n <= 2 * |s|
    ensures n == |s| <==> forall i :: 0 <= i < |s| ==> s[i] as int < 0x1_0000
  {
    if s == [] then 0 else Utf16Units(s[0]) + Utf16Length(s[1..])
  }
}
