/** What redaction takes and what it keeps (app/logsafe.py), in terms of the text alone. */
module RedactionKeeps {
  import opened Redaction

  // ---- The four patterns ----

  predicate LetterOrDigit(c: char) {
    'A' <= c <= 'Z' || 'a' <= c <= 'z' || '0' <= c <= '9'
  }

  /** s begins with this prefix and then n characters, each a letter, a digit or one of `also`. */
  predicate Begins(s: string, prefix: string, n: nat, also: string) {
    && |prefix| + n <= |s| && prefix <= s
    && forall i :: |prefix| <= i < |prefix| + n ==> LetterOrDigit(s[i]) || s[i] in also
  }

  lemma MatchIsLongEnough(p: Pattern, s: string)
    ensures MatchesFront(p, s) <==>
            && |p.prefix| + p.min <= |s| && p.prefix <= s
            && forall i :: |p.prefix| <= i < |p.prefix| + p.min ==> InClass(p.class_, s[i])
  {
    if p.prefix <= s {
      var rest := s[|p.prefix|..];
      assert forall i :: 0 <= i < |rest| ==> rest[i] == s[|p.prefix| + i];
      if MatchesFront(p, s) {
        assert forall i :: |p.prefix| <= i < |p.prefix| + p.min ==> s[i] == rest[i - |p.prefix|];
      } else if |rest| >= p.min && forall i :: 0 <= i < p.min ==> InClass(p.class_, rest[i]) {
        RunCovers(p.class_, rest, p.min);
      }
    }
  }

  /** Where a match may start: the four regular expressions, spelled out. */
  lemma PatternsMean(s: string)
    ensures PATTERNS == [SK_KEY, BEARER, BOT_URL, BASE64]
    ensures SK_KEY.pad == BEARER.pad == BOT_URL.pad == 0 && BASE64.pad == 2
    ensures MatchesFront(SK_KEY, s) <==> Begins(s, "sk-", 16, "")
    ensures MatchesFront(BEARER, s) <==> Begins(s, "Bearer ", 16, "._-")
    ensures MatchesFront(BOT_URL, s) <==> Begins(s, "tapi.bale.ai/bot", 8, "_:-")
    ensures MatchesFront(BASE64, s) <==> Begins(s, "", 40, "+/")
  {
    MatchIsLongEnough(SK_KEY, s);
    MatchIsLongEnough(BEARER, s);
    MatchIsLongEnough(BOT_URL, s);
    MatchIsLongEnough(BASE64, s);
    hide MatchesFront;
  }

  // ---- One substitution is a cut ----

  /**
   m, with `rest` after it, is one whole match: the prefix, a run of at least `min` characters of
   the class and then '=' signs, and neither the run nor the '=' signs go on behind it.
   */
  predicate IsMatch(p: Pattern, m: string, rest: string, run: nat, pads: nat) {
    && |m| == |p.prefix| + run + pads && run >= p.min && pads <= p.pad && p.prefix <= m
    && (forall i :: |p.prefix| <= i < |p.prefix| + run ==> InClass(p.class_, m[i]))
    && (forall i :: |p.prefix| + run <= i < |m| ==> m[i] == '=')
    && (pads == 0 && rest != [] ==> !InClass(p.class_, rest[0]))
    && (pads < p.pad && rest != [] ==> rest[0] != '=')
  }

  /** No match starts at one of the first n positions. */
  predicate NoneStarts(p: Pattern, s: string, n: nat)
    requires n <= |s|
  {
    forall i :: 0 <= i < n ==> !MatchesFront(p, s[i..])
  }

  /**
   s is kept[0] secrets[0] kept[1] ... secrets[n-1] kept[n]; the secrets are whole matches, and no
   match starts in a kept piece.
   */
  ghost predicate IsCut(p: Pattern, s: string, kept: seq<string>, secrets: seq<string>)
    decreases |secrets|
  {
    && |kept| == |secrets| + 1 && kept[0] <= s && NoneStarts(p, s, |kept[0]|)
    && if secrets == [] then kept[0] == s
       else
         var tail := s[|kept[0]|..];
         && secrets[0] <= tail && secrets[0] != []
         && (exists run, pads :: IsMatch(p, secrets[0], tail[|secrets[0]|..], run, pads))
         && IsCut(p, tail[|secrets[0]|..], kept[1..], secrets[1..])
  }

  /** The kept pieces with a marker between every two of them. */
  function WithMarkers(kept: seq<string>): string
    requires kept != []
  {
    if |kept| == 1 then kept[0] else kept[0] + "***REDACTED***" + WithMarkers(kept[1..])
  }

  lemma {:induction false} RunIs(k: Class, s: string, n: nat)
    requires n <= |s| && (forall i :: 0 <= i < n ==> InClass(k, s[i])) && (n < |s| ==> !InClass(k, s[n]))
    ensures RunLength(k, s) == n
  {
    RunCovers(k, s, n);
  }

  lemma {:induction false} PadIs(s: string, most: nat, n: nat)
    requires n <= most && n <= |s| && (forall i :: 0 <= i < n ==> s[i] == '=')
    requires n < most && n < |s| ==> s[n] != '='
    ensures PadLength(s, most) == n
  {
    PadCovers(s, most, n);
  }

  lemma NoPadInClass(k: Class)
    ensures !InClass(k, '=')
  {
  }

  /** A whole match is what matching finds. */
  lemma MatchIsFound(p: Pattern, m: string, rest: string, run: nat, pads: nat)
    requires IsMatch(p, m, rest, run, pads) && m != []
    ensures MatchesFront(p, m + rest) && MatchLength(p, m + rest) == |m|
  {
    hide RunLength, PadLength, InClass;
    var s, n := m + rest, |p.prefix|;
    assert s[..n] == m[..n] == p.prefix;
    NoPadInClass(p.class_);
    PartsOfMatch(p, m, rest, run, pads);
    RunIs(p.class_, s[n..], run);
    PadIs(s[n..][run..], p.pad, pads);
    assert s[n..][run..] == s[n + run..];
  }

  lemma PartsOfMatch(p: Pattern, m: string, rest: string, run: nat, pads: nat)
    requires IsMatch(p, m, rest, run, pads)
    ensures (m + rest)[|p.prefix|..] == m[|p.prefix|..] + rest
    ensures (m + rest)[|p.prefix|..][run..] == m[|p.prefix| + run..] + rest
    ensures forall i :: 0 <= i < run ==> (m + rest)[|p.prefix|..][i] == m[|p.prefix| + i]
  {
  }

  lemma {:induction false} PadCovers(s: string, most: nat, n: nat)
    requires n <= most && n <= |s| && forall i :: 0 <= i < n ==> s[i] == '='
    ensures PadLength(s, most) >= n
  {
    if n > 0 {
      PadCovers(s[1..], most - 1, n - 1);
    }
  }

  /** What matching finds is a whole match. */
  lemma FoundIsMatch(p: Pattern, s: string) returns (run: nat, pads: nat)
    requires MatchesFront(p, s)
    ensures var n := MatchLength(p, s); IsMatch(p, s[..n], s[n..], run, pads)
  {
    var tail := s[|p.prefix|..];
    run := RunLength(p.class_, tail);
    var after := s[|p.prefix| + run..];
    pads := PadLength(after, p.pad);
    assert forall i :: 0 <= i < |tail| ==> tail[i] == s[|p.prefix| + i];
    assert forall i :: 0 <= i < |after| ==> after[i] == s[|p.prefix| + run + i];
    assert forall i :: |p.prefix| <= i < |p.prefix| + run ==> s[i] == tail[i - |p.prefix|];
    assert forall i :: |p.prefix| + run <= i < |p.prefix| + run + pads ==> s[i] == after[i - |p.prefix| - run];
  }

  lemma {:induction false} SubAtKept(p: Pattern, s: string)
    requires s != [] && !MatchesFront(p, s)
    ensures Sub(p, s) == [s[0]] + Sub(p, s[1..])
  {
  }

  lemma OneMoreKept(s: string, n: nat, rest: string)
    requires n < |s|
    ensures s[..n] + ([s[n]] + rest) == s[..n + 1] + rest
    ensures s[n..] != [] && s[n..][0] == s[n] && s[n..][1..] == s[n + 1..]
  {
  }

  /** Up to the first match the text is kept as it is. */
  lemma {:induction false} SkipKept(p: Pattern, s: string, n: nat)
    requires n <= |s| && NoneStarts(p, s, n)
    ensures Sub(p, s) == s[..n] + Sub(p, s[n..])
  {
    hide Sub, MatchesFront;
    if n == 0 {
      assert s[0..] == s && s[..0] + Sub(p, s) == Sub(p, s);
    } else {
      SkipKept(p, s, n - 1);
      assert !MatchesFront(p, s[n - 1..]);
      hide NoneStarts;
      OneMoreKept(s, n - 1, Sub(p, s[n..]));
      SubAtKept(p, s[n - 1..]);
    }
  }

  /** Substitution at a match: the marker, and then whatever becomes of the rest. */
  lemma {:induction false} SubAtMatch(p: Pattern, s: string, m: string)
    requires m <= s && m != [] && exists run, pads :: IsMatch(p, m, s[|m|..], run, pads)
    ensures Sub(p, s) == "***REDACTED***" + Sub(p, s[|m|..])
  {
    var run, pads :| IsMatch(p, m, s[|m|..], run, pads);
    MatchIsFound(p, m, s[|m|..], run, pads);
    assert m + s[|m|..] == s;
    hide MatchesFront, MatchLength;
  }

  /** However the text is cut at its whole matches, the output is the kept pieces with markers in between. */
  lemma {:induction false} SubOfCut(p: Pattern, s: string, kept: seq<string>, secrets: seq<string>)
    requires IsCut(p, s, kept, secrets)
    ensures Sub(p, s) == WithMarkers(kept)
    decreases |secrets|
  {
    hide Sub, IsMatch;
    SkipKept(p, s, |kept[0]|);
    var tail := s[|kept[0]|..];
    if secrets == [] {
      assert tail == [] && s == s + [];
      EmptySub(p);
    } else {
      SubAtMatch(p, tail, secrets[0]);
      SubOfCut(p, tail[|secrets[0]|..], kept[1..], secrets[1..]);
      var rest := WithMarkers(kept[1..]);
      assert kept[0] + ("***REDACTED***" + rest) == kept[0] + "***REDACTED***" + rest;
    }
  }

  lemma {:induction false} EmptySub(p: Pattern)
    ensures Sub(p, []) == []
  {
  }

  lemma {:induction false} CutAtMatch(p: Pattern, s: string, kept: seq<string>, secrets: seq<string>)
    requires MatchesFront(p, s) && IsCut(p, s[MatchLength(p, s)..], kept, secrets)
    ensures IsCut(p, s, [[]] + kept, [s[..MatchLength(p, s)]] + secrets)
  {
    var n := MatchLength(p, s);
    var run, pads := FoundIsMatch(p, s);
    assert s[0..] == s && |s[..n]| == n;
    assert ([[]] + kept)[1..] == kept && ([s[..n]] + secrets)[1..] == secrets;
    hide MatchesFront, MatchLength, IsMatch;
  }

  lemma {:induction false} CutAtKept(p: Pattern, s: string, kept: seq<string>, secrets: seq<string>)
    requires s != [] && !MatchesFront(p, s) && IsCut(p, s[1..], kept, secrets)
    ensures IsCut(p, s, [[s[0]] + kept[0]] + kept[1..], secrets)
  {
    hide MatchesFront, IsMatch;
    var first := [s[0]] + kept[0];
    var all := [first] + kept[1..];
    assert s == [s[0]] + s[1..];
    assert first <= s && s[|first|..] == s[1..][|kept[0]|..];
    forall i | 0 <= i < |first|
      ensures !MatchesFront(p, s[i..])
    {
      assert i > 0 ==> s[i..] == s[1..][i - 1..];
      assert s[0..] == s;
    }
    assert all[1..] == kept[1..];
  }

  /**
   One substitution, as what it does to the text: the text is cut at whole matches, leftmost
   first, every character outside them is kept in its place, and each match becomes one marker.
   */
  lemma {:induction false} SubIsCut(p: Pattern, s: string) returns (kept: seq<string>, secrets: seq<string>)
    ensures IsCut(p, s, kept, secrets) && Sub(p, s) == WithMarkers(kept)
    decreases |s|
  {
    if s == [] {
      kept, secrets := [[]], [];
    } else if MatchesFront(p, s) {
      kept, secrets := SubIsCut(p, s[MatchLength(p, s)..]);
      CutAtMatch(p, s, kept, secrets);
      kept, secrets := [[]] + kept, [s[..MatchLength(p, s)]] + secrets;
    } else {
      kept, secrets := SubIsCut(p, s[1..]);
      CutAtKept(p, s, kept, secrets);
      kept := [[s[0]] + kept[0]] + kept[1..];
    }
    hide IsCut, Sub, MatchesFront;
    SubOfCut(p, s, kept, secrets);
  }

  // ---- Text around a character that no secret holds ----

  /** No match of the pattern has this character in it. */
  predicate Breaks(p: Pattern, c: char) {
    c !in p.prefix && !InClass(p.class_, c) && c != '='
  }

  lemma {:induction false} RunStops(k: Class, a: string, c: char, b: string)
    requires !InClass(k, c)
    ensures RunLength(k, a + [c] + b) == RunLength(k, a)
  {
    hide InClass;
    var s, n := a + [c] + b, RunLength(k, a);
    assert s[n] == if n < |a| then a[n] else c;
    RunIs(k, s, n);
  }

  lemma {:induction false} PadStops(a: string, c: char, b: string, most: nat)
    requires c != '='
    ensures PadLength(a + [c] + b, most) == PadLength(a, most)
  {
    var s, n := a + [c] + b, PadLength(a, most);
    assert n < |s| && s[n] == if n < |a| then a[n] else c;
    PadIs(s, most, n);
  }

  lemma PrefixStops(prefix: string, a: string, c: char, b: string)
    requires c !in prefix
    ensures prefix <= a + [c] + b <==> prefix <= a
  {
    var s := a + [c] + b;
    assert s[|a|] == c;
    if |prefix| > |a| {
      assert prefix[|a|] in prefix;
    }
  }

  lemma DropJoined(a: string, c: char, b: string, n: nat)
    requires n <= |a|
    ensures (a + [c] + b)[n..] == a[n..] + [c] + b
  {
  }

  /** What matches at the front does not look past such a character. */
  lemma FrontStops(p: Pattern, a: string, c: char, b: string)
    requires Breaks(p, c)
    ensures MatchesFront(p, a + [c] + b) <==> MatchesFront(p, a)
    ensures MatchesFront(p, a) ==> MatchLength(p, a + [c] + b) == MatchLength(p, a)
  {
    hide RunLength, PadLength, InClass;
    var s, m := a + [c] + b, |p.prefix|;
    PrefixStops(p.prefix, a, c, b);
    if p.prefix <= a {
      DropJoined(a, c, b, m);
      RunStops(p.class_, a[m..], c, b);
      var run := m + RunLength(p.class_, a[m..]);
      DropJoined(a, c, b, run);
      PadStops(a[run..], c, b, p.pad);
    }
  }

  lemma {:induction false} SubJoined(p: Pattern, a: string, c: char, b: string)
    requires Breaks(p, c)
    ensures Sub(p, a + [c] + b) == Sub(p, a) + [c] + Sub(p, b)
    decreases |a|
  {
    hide MatchLength, Breaks;
    var s := a + [c] + b;
    FrontStops(p, a, c, b);
    if a == [] {
      NothingMatches(p);
      assert s == [c] + b && s[1..] == b;
    } else {
      var n := if MatchesFront(p, a) then MatchLength(p, a) else 1;
      hide MatchesFront;
      DropJoined(a, c, b, n);
      SubJoined(p, a[n..], c, b);
    }
  }

  lemma NothingMatches(p: Pattern)
    ensures !MatchesFront(p, [])
  {
  }

  /**
   Redaction goes on behind a secret, and it works line by line: on both sides of a newline, or of
   any other character that none of the patterns can match, it the output is that of the side alone.
   */
  lemma RedactedJoined(a: string, c: char, b: string)
    requires !LetterOrDigit(c) && c !in "+/=._:- "
    ensures Redacted(a + [c] + b) == Redacted(a) + [c] + Redacted(b)
  {
    assert forall p :: p in PATTERNS ==> Breaks(p, c) by {
      NoPatternHolds(c);
    }
    hide Breaks;
    SubAllJoined(PATTERNS, a, c, b);
  }

  lemma NoPatternHolds(c: char)
    requires !LetterOrDigit(c) && c !in "+/=._:- "
    ensures forall p :: p in PATTERNS ==> Breaks(p, c)
  {
    var also := "+/=._:- ";
    assert also[0] == '+' && also[1] == '/' && also[2] == '=' && also[3] == '.';
    assert also[4] == '_' && also[5] == ':' && also[6] == '-' && also[7] == ' ';
  }

  lemma {:induction false} SubAllJoined(patterns: seq<Pattern>, a: string, c: char, b: string)
    requires forall p :: p in patterns ==> Breaks(p, c)
    ensures SubAll(patterns, a + [c] + b) == SubAll(patterns, a) + [c] + SubAll(patterns, b)
  {
    if patterns != [] {
      var init, last := patterns[..|patterns| - 1], patterns[|patterns| - 1];
      assert patterns == init + [last];
      SubAllJoined(init, a, c, b);
      SubJoined(last, SubAll(init, a), c, SubAll(init, b));
    }
  }
}
