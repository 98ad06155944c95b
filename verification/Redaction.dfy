/**
 The log redactor (app/logsafe.py). A pattern is a literal prefix, a run of at least `min`
 characters of one class, and up to `pad` trailing '='; every one of the four regular
 expressions has this form, and greedy matching takes the whole run.
 */
module Redaction {

  datatype Class = Alnum | Bearer | BotPath | Base64

  datatype Expression = Pattern(prefix: string, class_: Class, min: nat, pad: nat)

  /** No pattern matches the empty string. */
  type Pattern = e: Expression | |e.prefix| + e.min > 0 witness Pattern("x", Alnum, 0, 0)

  const SK_KEY: Pattern := Pattern("sk-", Alnum, 16, 0)
  const BEARER: Pattern := Pattern("Bearer ", Bearer, 16, 0)
  const BOT_URL: Pattern := Pattern("tapi.bale.ai/bot", BotPath, 8, 0)
  const BASE64: Pattern := Pattern("", Base64, 40, 2)

  const PATTERNS: seq<Pattern> := [SK_KEY, BEARER, BOT_URL, BASE64]

  const REDACTED := "***REDACTED***"

  predicate IsAlnum(c: char) {
    'A' <= c <= 'Z' || 'a' <= c <= 'z' || '0' <= c <= '9'
  }

  predicate InClass(k: Class, c: char) {
    || IsAlnum(c)
    || (k.Bearer? && (c == '.' || c == '_' || c == '-'))
    || (k.BotPath? && (c == '_' || c == ':' || c == '-'))
    || (k.Base64? && (c == '+' || c == '/'))
  }

  /** The length of the longest prefix of s whose characters are all in the class. */
  function RunLength(k: Class, s: string): (n: nat)
    ensures n <= |s|
    ensures forall i :: 0 <= i < n ==> InClass(k, s[i])
    ensures n < |s| ==> !InClass(k, s[n])
  {
    if s != [] && InClass(k, s[0]) then 1 + RunLength(k, s[1..]) else 0
  }

  /** How many of the leading characters are '=', at most `most`. */
  function PadLength(s: string, most: nat): (n: nat)
    ensures n <= |s| && n <= most
    ensures forall i :: 0 <= i < n ==> s[i] == '='
    ensures n < most && n < |s| ==> s[n] != '='
  {
    if most > 0 && s != [] && s[0] == '=' then 1 + PadLength(s[1..], most - 1) else 0
  }

  /** The pattern matches at the front of s. */
  predicate MatchesFront(p: Pattern, s: string) {
    p.prefix <= s && RunLength(p.class_, s[|p.prefix|..]) >= p.min
  }

  /** How much of s the match at its front takes. */
  function MatchLength(p: Pattern, s: string): (n: nat)
    requires MatchesFront(p, s)
    ensures |p.prefix| + p.min <= n <= |s|
  {
    var run := |p.prefix| + RunLength(p.class_, s[|p.prefix|..]);
    run + PadLength(s[run..], p.pad)
  }

  /** No match of p anywhere in s: re.search finds nothing. */
  ghost predicate Free(p: Pattern, s: string) {
    forall i :: 0 <= i <= |s| ==> !MatchesFront(p, s[i..])
  }

  /** p.sub(REDACTED, s): leftmost, greedy, non-overlapping replacement. */
  function Sub(p: Pattern, s: string): string
    decreases |s|
  {
    if s == [] then []
    else if MatchesFront(p, s) then REDACTED + Sub(p, s[MatchLength(p, s)..])
    else [s[0]] + Sub(p, s[1..])
  }

  function SubAll(patterns: seq<Pattern>, text: string): string
  {
    if patterns == [] then text
    else Sub(patterns[|patterns| - 1], SubAll(patterns[..|patterns| - 1], text))
  }

  function Redacted(text: string): string {
    SubAll(PATTERNS, text)
  }

  /** redact: the loop that rebinds its text once per pattern. */
  method Redact(text: string) returns (out: string)
    ensures out == Redacted(text)
  {
    assert SubAll([], text) == text;
    hide Sub, SubAll;
    out := text;
    assert PATTERNS[..0] == [];
    for i := 0 to |PATTERNS|
      invariant out == SubAll(PATTERNS[..i], text)
    {
      SubAllSnoc(PATTERNS[..i], PATTERNS[i], text);
      assert PATTERNS[..i + 1] == PATTERNS[..i] + [PATTERNS[i]];
      out := Sub(PATTERNS[i], out);
    }
    assert PATTERNS[..|PATTERNS|] == PATTERNS;
  }

  // ---- Completeness ----

  /**
   What makes a pattern blind to inserted markers: it cannot match across a '*', and the word
   between the stars is shorter than any match.
   */
  predicate MarkerProof(p: Pattern) {
    '*' !in p.prefix && |p.prefix| + p.min > 8
  }

  lemma {:induction false} RunCovers(k: Class, s: string, n: nat)
    requires n <= |s| && forall i :: 0 <= i < n ==> InClass(k, s[i])
    ensures RunLength(k, s) >= n
  {
    if n > 0 {
      RunCovers(k, s[1..], n - 1);
    }
  }

  /** A match depends on its first |prefix| + min characters only, and none of them is a '*'. */
  lemma MatchIsLocal(p: Pattern, s: string, t: string, n: nat)
    requires MatchesFront(p, s) && n == |p.prefix| + p.min
    requires n <= |t| && n <= |s| && t[..n] == s[..n]
    ensures MatchesFront(p, t)
  {
    var m := |p.prefix|;
    assert t[..m] == t[..n][..m] == s[..n][..m] == s[..m];
    forall i | 0 <= i < p.min
      ensures t[m..][i] == s[m..][i]
    {
      assert t[m + i] == t[..n][m + i] == s[..n][m + i] == s[m + i];
    }
    RunCovers(p.class_, t[m..], p.min);
  }

  lemma MatchHasNoStar(p: Pattern, s: string)
    requires MarkerProof(p) && MatchesFront(p, s)
    ensures |p.prefix| + p.min <= |s|
    ensures '*' !in s[..|p.prefix| + p.min]
  {
    var n, m := |p.prefix| + p.min, |p.prefix|;
    forall i | 0 <= i < n
      ensures s[i] != '*'
    {
      if i < m {
        assert s[i] == p.prefix[i] && p.prefix[i] in p.prefix;
      } else {
        assert s[i] == s[m..][i - m];
      }
    }
  }

  /** As long as no marker has been written, the output repeats the input. */
  lemma {:induction false} StarFreePrefixKept(q: Pattern, t: string, n: nat)
    requires n <= |Sub(q, t)| && '*' !in Sub(q, t)[..n]
    ensures n <= |t| && t[..n] == Sub(q, t)[..n]
  {
    if n > 0 {
      var out := Sub(q, t);
      assert out[0] in out[..n];
      assert !MatchesFront(q, t);
      var rest := Sub(q, t[1..]);
      assert out[..n] == [t[0]] + rest[..n - 1];
      StarFreePrefixKept(q, t[1..], n - 1);
    }
  }

  /** No match starts inside a marker, whatever follows it. */
  lemma NoMatchInMarker(p: Pattern, rest: string, i: nat)
    requires MarkerProof(p) && i < |REDACTED|
    ensures !MatchesFront(p, (REDACTED + rest)[i..])
  {
    var s := (REDACTED + rest)[i..];
    var n := |p.prefix| + p.min;
    var star := if i < 3 || i >= 11 then 0 else 11 - i;
    assert s[star] == REDACTED[i + star] == '*';
    if n <= |s| {
      assert s[..n][star] == s[star];
      assert '*' in s[..n];
    }
    if MatchesFront(p, s) {
      MatchHasNoStar(p, s);
    }
  }

  lemma FreeSuffix(p: Pattern, s: string, n: nat)
    requires Free(p, s) && n <= |s|
    ensures Free(p, s[n..])
  {
    forall i | 0 <= i <= |s[n..]|
      ensures !MatchesFront(p, s[n..][i..])
    {
      assert s[n..][i..] == s[n + i..];
    }
  }

  lemma FreeAfterMarker(p: Pattern, rest: string)
    requires MarkerProof(p) && Free(p, rest)
    ensures Free(p, REDACTED + rest)
  {
    var out := REDACTED + rest;
    forall i | 0 <= i <= |out|
      ensures !MatchesFront(p, out[i..])
    {
      if i < |REDACTED| {
        NoMatchInMarker(p, rest, i);
      } else {
        assert out[i..] == rest[i - |REDACTED|..];
      }
    }
  }

  /** A character that is kept starts no match either. */
  lemma {:induction false} FreeAfterKept(p: Pattern, q: Pattern, t: string)
    requires MarkerProof(p) && t != [] && !MatchesFront(q, t) && !MatchesFront(p, t)
    requires Free(p, Sub(q, t[1..]))
    ensures Free(p, Sub(q, t))
  {
    var out, rest := Sub(q, t), Sub(q, t[1..]);
    assert out == [t[0]] + rest;
    forall i | 0 <= i <= |out|
      ensures !MatchesFront(p, out[i..])
    {
      if i > 0 {
        assert out[i..] == rest[i - 1..];
      } else {
        assert out[0..] == out;
        if MatchesFront(p, out) {
          MatchHasNoStar(p, out);
          var n := |p.prefix| + p.min;
          StarFreePrefixKept(q, t, n);
          MatchIsLocal(p, out, t, n);
        }
      }
    }
  }

  /** Substituting q removes every match of q and creates no match of any other pattern. */
  lemma {:induction false} SubFree(p: Pattern, q: Pattern, t: string)
    requires MarkerProof(p) && MarkerProof(q)
    requires p == q || Free(p, t)
    ensures Free(p, Sub(q, t))
    decreases |t|
  {
    hide Free, MatchesFront;
    if t == [] {
      NothingFree(p);
    } else {
      var n := if MatchesFront(q, t) then MatchLength(q, t) else 1;
      if p != q {
        FreeSuffix(p, t, n);
        FreeFront(p, t);
      }
      SubFree(p, q, t[n..]);
      if MatchesFront(q, t) {
        FreeAfterMarker(p, Sub(q, t[n..]));
      } else {
        FreeAfterKept(p, q, t);
      }
    }
  }

  lemma FreeFront(p: Pattern, s: string)
    requires Free(p, s)
    ensures !MatchesFront(p, s)
  {
    assert s[0..] == s;
  }

  lemma NothingFree(p: Pattern)
    ensures Free(p, [])
  {
    var s: string := [];
    assert s[0..] == [];
  }

  /** For any list of such patterns, successive substitution leaves no match of any of them. */
  lemma {:induction false} SubAllFree(patterns: seq<Pattern>, p: Pattern, text: string)
    requires forall q :: q in patterns ==> MarkerProof(q)
    requires p in patterns
    ensures Free(p, SubAll(patterns, text))
  {
    var init, last := patterns[..|patterns| - 1], patterns[|patterns| - 1];
    assert patterns == init + [last];
    assert MarkerProof(last) && MarkerProof(p);
    if p != last {
      SubAllFree(init, p, text);
    }
    SubFree(p, last, SubAll(init, text));
  }

  /** The output of redact contains no match of any of the four patterns. */
  lemma RedactedIsFree(text: string)
    ensures forall p :: p in PATTERNS ==> Free(p, Redacted(text))
  {
    forall p | p in PATTERNS
      ensures Free(p, Redacted(text))
    {
      SubAllFree(PATTERNS, p, text);
    }
  }

  lemma {:induction false} SubAllSnoc(patterns: seq<Pattern>, p: Pattern, text: string)
    ensures SubAll(patterns + [p], text) == Sub(p, SubAll(patterns, text))
  {
    assert (patterns + [p])[..|patterns|] == patterns;
  }

  lemma {:induction false} RedactedUnfolds(text: string)
    ensures Redacted(text) == Sub(BASE64, Sub(BOT_URL, Sub(BEARER, Sub(SK_KEY, text))))
  {
    FourPatternsUnfold(SK_KEY, BEARER, BOT_URL, BASE64, text);
    hide Sub, SubAll;
  }

  lemma {:induction false} FourPatternsUnfold(p: Pattern, q: Pattern, r: Pattern, s: Pattern, text: string)
    ensures SubAll([p, q, r, s], text) == Sub(s, Sub(r, Sub(q, Sub(p, text))))
  {
    assert SubAll([], text) == text;
    hide Sub, SubAll;
    SubAllSnoc([], p, text);
    SubAllSnoc([p], q, text);
    SubAllSnoc([p, q], r, text);
    SubAllSnoc([p, q, r], s, text);
    assert [] + [p] == [p] && [p] + [q] == [p, q];
    assert [p, q] + [r] == [p, q, r] && [p, q, r] + [s] == [p, q, r, s];
  }

  // ---- Stability ----

  lemma {:induction false} FreeUnchanged(p: Pattern, s: string)
    requires Free(p, s)
    ensures Sub(p, s) == s
  {
    if s != [] {
      assert s[0..] == s;
      forall i | 0 <= i <= |s[1..]|
        ensures s[1..][i..] == s[1 + i..]
      {
      }
      FreeUnchanged(p, s[1..]);
    }
  }

  /** Text without secrets is left alone. */
  lemma CleanTextUntouched(text: string)
    requires forall p :: p in PATTERNS ==> Free(p, text)
    ensures Redacted(text) == text
  {
    RedactedUnfolds(text);
    assert SK_KEY in PATTERNS && BEARER in PATTERNS && BOT_URL in PATTERNS && BASE64 in PATTERNS;
    FreeUnchanged(SK_KEY, text);
    FreeUnchanged(BEARER, text);
    FreeUnchanged(BOT_URL, text);
    FreeUnchanged(BASE64, text);
  }

  /** Redacting twice is redacting once. */
  lemma RedactTwice(text: string)
    ensures Redacted(Redacted(text)) == Redacted(text)
  {
    RedactedIsFree(text);
    CleanTextUntouched(Redacted(text));
  }

  /** The replaced stretch is maximal: every character that continues the secret is inside it. */
  lemma NoTailSurvives(p: Pattern, s: string, end: nat)
    requires MatchesFront(p, s)
    requires |p.prefix| <= end <= |s| && forall i :: |p.prefix| <= i < end ==> InClass(p.class_, s[i])
    ensures end <= MatchLength(p, s)
  {
    var tail := s[|p.prefix|..];
    RunCovers(p.class_, tail, end - |p.prefix|);
  }
}
