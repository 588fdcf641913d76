/** The e-mail shape test of the contact form: the unanchored regular
    expression `\S+@\S+\.\S+`, once as a declarative predicate (`EmailShape`)
    and once as a left-to-right automaton (`Test`), proved to agree. */
module EmailPattern {
  import opened JsText

  const At: CodeUnit := 0x40
  const Dot: CodeUnit := 0x2E

  /** The regular-expression class `\S`. */
  predicate NonWs(u: CodeUnit)
  {
    !IsWhitespace(u)
  }

  /** A match of `\S+@\S+\.\S+` whose '@' sits at `p` and whose literal '.'
      sits at `q`. Since the pattern is unanchored, a one-unit run of `\S`
      before '@' and after '.' is enough; between them every unit must be `\S`
      (the run may itself contain '@' or '.'). */
  ghost predicate MatchAt(s: JsString, p: int, q: int)
  {
    && 1 <= p && p + 1 < q && q + 1 < |s|
    && s[p] == At && s[q] == Dot
    && NonWs(s[p - 1]) && NonWs(s[q + 1])
    && forall k :: p < k < q ==> NonWs(s[k])
  }

  /** `/\S+@\S+\.\S+/.test(s)` as a property of `s`. */
  ghost predicate EmailShape(s: JsString)
  {
    exists p, q :: MatchAt(s, p, q)
  }

  // What each automaton state means after reading the prefix s[..i].

  /** A `\S` run of the local part ends at `i`. */
  ghost predicate InLocal(s: JsString, i: int)
  {
    1 <= i <= |s| && NonWs(s[i - 1])
  }

  /** A local part followed by '@' ends at `i`. */
  ghost predicate AfterAt(s: JsString, i: int)
  {
    2 <= i <= |s| && s[i - 1] == At && NonWs(s[i - 2])
  }

  /** The '@' at `p` is followed by a non-empty `\S` run up to `i`. */
  ghost predicate DomainFrom(s: JsString, p: int, i: int)
  {
    && 1 <= p && p + 1 < i <= |s|
    && s[p] == At && NonWs(s[p - 1])
    && forall k :: p < k < i ==> NonWs(s[k])
  }

  ghost predicate InDomain(s: JsString, i: int)
  {
    exists p :: DomainFrom(s, p, i)
  }

  /** A domain run followed by the literal '.' ends at `i`. */
  ghost predicate AfterDot(s: JsString, i: int)
  {
    1 <= i <= |s| && s[i - 1] == Dot && InDomain(s, i - 1)
  }

  /** A whole match lies inside s[..i]. */
  ghost predicate Found(s: JsString, i: int)
  {
    exists p, q :: MatchAt(s, p, q) && q + 2 <= i
  }

  /** The set of live states of the pattern's automaton. The start state is
      always live, because the search is unanchored. */
  datatype Nfa = Nfa(local: bool, afterAt: bool, domain: bool, afterDot: bool, found: bool)

  const Start := Nfa(false, false, false, false, false)

  function Step(n: Nfa, u: CodeUnit): Nfa
  {
    Nfa(local := NonWs(u),
        afterAt := n.local && u == At,
        domain := (n.afterAt || n.domain) && NonWs(u),
        afterDot := n.domain && u == Dot,
        found := n.found || (n.afterDot && NonWs(u)))
  }

  /** `n` holds exactly the states live after reading s[..i]. */
  ghost predicate Tracks(s: JsString, i: int, n: Nfa)
  {
    && 0 <= i <= |s|
    && n.local == InLocal(s, i)
    && n.afterAt == AfterAt(s, i)
    && n.domain == InDomain(s, i)
    && n.afterDot == AfterDot(s, i)
    && n.found == Found(s, i)
  }

  lemma StartTracks(s: JsString)
    ensures Tracks(s, 0, Start)
  {
  }

  /** The domain run either starts right after '@' or extends a shorter one. */
  lemma {:induction false} DomainStep(s: JsString, i: int)
    requires 0 <= i < |s|
    ensures InDomain(s, i + 1) <==> (AfterAt(s, i) || InDomain(s, i)) && NonWs(s[i])
  {
    if InDomain(s, i + 1) {
      var p :| DomainFrom(s, p, i + 1);
      if p + 1 < i {
        assert DomainFrom(s, p, i);
      } else {
        assert AfterAt(s, i);
      }
    }
    if AfterAt(s, i) && NonWs(s[i]) {
      assert DomainFrom(s, i - 1, i + 1);
    }
    if InDomain(s, i) && NonWs(s[i]) {
      var p :| DomainFrom(s, p, i);
      assert DomainFrom(s, p, i + 1);
    }
  }

  /** A match first completes when a `\S` follows '.' after a domain run. */
  lemma {:induction false} FoundStep(s: JsString, i: int)
    requires 0 <= i < |s|
    ensures Found(s, i + 1) <==> Found(s, i) || (AfterDot(s, i) && NonWs(s[i]))
  {
    if Found(s, i + 1) && !Found(s, i) {
      var p, q :| MatchAt(s, p, q) && q + 2 <= i + 1;
      assert q + 1 == i;
      assert DomainFrom(s, p, q);
    }
    if AfterDot(s, i) && NonWs(s[i]) {
      var p :| DomainFrom(s, p, i - 1);
      assert MatchAt(s, p, i - 1);
    }
  }

  lemma StepTracks(s: JsString, i: int, n: Nfa)
    requires Tracks(s, i, n) && i < |s|
    ensures Tracks(s, i + 1, Step(n, s[i]))
  {
    DomainStep(s, i);
    FoundStep(s, i);
  }

  /** Runs the automaton over the rest of the string; the answer is whether
      the whole string matches. */
  function Scan(s: JsString, i: int, n: Nfa): (m: bool)
    requires Tracks(s, i, n)
    ensures m <==> EmailShape(s)
    decreases |s| - i
  {
    if i == |s| then
      n.found
    else
      StepTracks(s, i, n);
      Scan(s, i + 1, Step(n, s[i]))
  }

  /** `/\S+@\S+\.\S+/.test(s)`. */
  function Test(s: JsString): (m: bool)
    ensures m <==> EmailShape(s)
  {
    StartTracks(s);
    Scan(s, 0, Start)
  }

  /** A string without '@' never matches. */
  lemma NoAtNoMatch(s: JsString)
    requires forall k :: 0 <= k < |s| ==> s[k] != At
    ensures !EmailShape(s)
  {
  }

  /** A match survives any text around it, since the search is unanchored. */
  lemma {:induction false} MatchInContext(a: JsString, s: JsString, b: JsString)
    requires EmailShape(s)
    ensures EmailShape(a + s + b)
  {
    var p, q :| MatchAt(s, p, q);
    var t := a + s + b;
    forall j | |a| + p < j < |a| + q ensures NonWs(t[j]) {
      assert t[j] == s[j - |a|];
    }
    assert MatchAt(t, |a| + p, |a| + q);
  }
}
