/** JavaScript strings as the contact form sees them: sequences of UTF-16 code
    units (so `length` counts code units), with the one whitespace table that
    both `String.prototype.trim` and the regular-expression class `\s` use. */
module JsText {

  /** One UTF-16 code unit. */
  newtype CodeUnit = x: int | 0 <= x < 0x1_0000

  type JsString = seq<CodeUnit>

  /** WhiteSpace and LineTerminator of ECMA-262 (sections 12.2 and 12.3):
      TAB, LF, VT, FF, CR, SPACE, NBSP, the Zs space separators, LS, PS and ZWNBSP. */
  predicate IsWhitespace(u: CodeUnit)
  {
    || u == 0x09 || u == 0x0A || u == 0x0B || u == 0x0C || u == 0x0D
    || u == 0x20 || u == 0xA0 || u == 0x1680
    || (0x2000 <= u <= 0x200A)
    || u == 0x2028 || u == 0x2029 || u == 0x202F || u == 0x205F
    || u == 0x3000 || u == 0xFEFF
  }

  /** A string holding nothing but whitespace; the empty string is blank. */
  ghost predicate Blank(s: JsString)
  {
    forall k :: 0 <= k < |s| ==> IsWhitespace(s[k])
  }

  /** The string with its leading whitespace removed. */
  function TrimStart(s: JsString): (r: JsString)
    ensures |r| <= |s| && r == s[|s| - |r|..]
    ensures forall k :: 0 <= k < |s| - |r| ==> IsWhitespace(s[k])
    ensures r == [] || !IsWhitespace(r[0])
  {
    if s != [] && IsWhitespace(s[0]) then TrimStart(s[1..]) else s
  }

  /** The string with its trailing whitespace removed. */
  function TrimEnd(s: JsString): (r: JsString)
    ensures |r| <= |s| && r == s[..|r|]
    ensures forall k :: |r| <= k < |s| ==> IsWhitespace(s[k])
    ensures r == [] || !IsWhitespace(r[|r| - 1])
  {
    if s != [] && IsWhitespace(s[|s| - 1]) then TrimEnd(s[..|s| - 1]) else s
  }

  /** `r` is what is left of `s` once a whitespace prefix of length `a` and a
      whitespace suffix are dropped. */
  ghost predicate TrimmedAt(r: JsString, s: JsString, a: int)
  {
    && 0 <= a <= |s| - |r|
    && s[a..a + |r|] == r
    && (forall k :: 0 <= k < a ==> IsWhitespace(s[k]))
    && (forall k :: a + |r| <= k < |s| ==> IsWhitespace(s[k]))
  }

  /** Neither end of `r` is whitespace. */
  ghost predicate NoOuterWhitespace(r: JsString)
  {
    r == [] || (!IsWhitespace(r[0]) && !IsWhitespace(r[|r| - 1]))
  }

  /** `String.prototype.trim`: the input without its leading and trailing
      whitespace. The result's ends are not whitespace, and it is empty exactly
      when the input is blank; `TrimUnique` shows this determines it. */
  function Trim(s: JsString): (r: JsString)
    ensures exists a :: TrimmedAt(r, s, a)
    ensures NoOuterWhitespace(r)
    ensures r == [] <==> Blank(s)
  {
    TrimDropsOnlyWhitespace(s);
    TrimEnd(TrimStart(s))
  }

  /** Trimming the start, then the end, drops a whitespace prefix and a
      whitespace suffix and nothing else, leaves no whitespace at either end,
      and leaves nothing exactly when the input is blank. */
  lemma TrimDropsOnlyWhitespace(s: JsString)
    ensures var r := TrimEnd(TrimStart(s));
      && TrimmedAt(r, s, |s| - |TrimStart(s)|)
      && NoOuterWhitespace(r)
      && (r == [] <==> Blank(s))
  {
    var t := TrimStart(s);
    var r := TrimEnd(t);
    StripsCompose(s, t, r);
    TrimEmptyOnlyIfBlank(s);
  }

  /** Dropping a whitespace prefix (giving `t`), then a whitespace suffix of
      `t` (giving `r`), drops a whitespace prefix and suffix of `s`. */
  lemma {:induction false} StripsCompose(s: JsString, t: JsString, r: JsString)
    requires |t| <= |s| && t == s[|s| - |t|..]
    requires forall k :: 0 <= k < |s| - |t| ==> IsWhitespace(s[k])
    requires |r| <= |t| && r == t[..|r|]
    requires forall k :: |r| <= k < |t| ==> IsWhitespace(t[k])
    ensures TrimmedAt(r, s, |s| - |t|)
  {
    var a := |s| - |t|;
    assert s[a..a + |r|] == r;
    forall k | a + |r| <= k < |s| ensures IsWhitespace(s[k]) {
      assert s[k] == t[k - a];
    }
  }

  /** The trimmed string is empty exactly when every code unit is whitespace. */
  lemma TrimEmptyOnlyIfBlank(s: JsString)
    ensures TrimEnd(TrimStart(s)) == [] <==> Blank(s)
  {
    var t := TrimStart(s);
    if TrimEnd(t) == [] {
      assert t == [];
    } else {
      assert t != [] && !IsWhitespace(s[|s| - |t|]);
    }
  }

  /** Only one string meets the contract of `Trim`: dropping a whitespace
      prefix and suffix so that neither end is whitespace has one outcome. */
  lemma TrimUnique(s: JsString, r: JsString, a: int)
    requires TrimmedAt(r, s, a)
    requires NoOuterWhitespace(r)
    requires r == [] <==> Blank(s)
    ensures r == Trim(s)
  {
    var t := Trim(s);
    var b :| TrimmedAt(t, s, b);
    TrimmedUnique(s, r, a, t, b);
  }

  lemma {:induction false} TrimmedUnique(s: JsString, r: JsString, a: int, t: JsString, b: int)
    requires TrimmedAt(r, s, a) && TrimmedAt(t, s, b)
    requires NoOuterWhitespace(r) && NoOuterWhitespace(t)
    requires r == [] <==> Blank(s)
    requires t == [] <==> Blank(s)
    ensures r == t
  {
    if r != [] {
      assert s[a] == r[0] && s[b] == t[0];
      assert a == b;
      assert s[a + |r| - 1] == r[|r| - 1] && s[b + |t| - 1] == t[|t| - 1];
      assert |r| == |t|;
    }
  }

  /** A string whose ends are already free of whitespace is its own trim. */
  lemma TrimFixedPoint(s: JsString)
    requires NoOuterWhitespace(s)
    ensures Trim(s) == s
  {
    assert TrimStart(s) == s;
    assert TrimEnd(s) == s;
  }

  /** Trimming twice trims no further than trimming once. */
  lemma TrimIdempotent(s: JsString)
    ensures Trim(Trim(s)) == Trim(s)
  {
    TrimFixedPoint(Trim(s));
  }

  /** The code units of a string literal, for literals in the Basic Multilingual
      Plane, where each character is exactly one UTF-16 code unit. */
  function FromBmp(s: string): (r: JsString)
    requires forall i :: 0 <= i < |s| ==> s[i] as int < 0x1_0000
    ensures |r| == |s|
    ensures forall i :: 0 <= i < |s| ==> r[i] as int == s[i] as int
  {
    seq(|s|, i requires 0 <= i < |s| => s[i] as int as CodeUnit)
  }
}
