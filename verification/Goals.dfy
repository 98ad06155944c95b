/** The goal list of the constitution: "title:weight; title2:weight2" (app/constitution.py). */
module Goals {
  import opened Wrappers
  import opened PyText

  const DEFAULT_GOAL_WEIGHT := 3

  datatype Goal = Goal(title: string, weight: int)

  /** raw.split(";") */
  function Split(s: string): (parts: seq<string>)
    ensures |parts| >= 1
    ensures forall i :: 0 <= i < |parts| ==> ';' !in parts[i]
  {
    if s == [] then [[]]
    else
      var rest := Split(s[1..]);
      if s[0] == ';' then [[]] + rest else [[s[0]] + rest[0]] + rest[1..]
  }

  /** The position of the last colon, or -1. */
  function LastColon(s: string): (i: int)
    ensures -1 <= i < |s|
    ensures i >= 0 ==> s[i] == ':'
    ensures forall j :: i < j < |s| ==> s[j] != ':'
  {
    if s == [] then -1
    else if s[|s| - 1] == ':' then |s| - 1
    else LastColon(s[..|s| - 1])
  }

  /** What one chunk adds to the list: at most one goal. */
  function ParseChunk(raw: string): seq<Goal> {
    var chunk := Strip(raw);
    var colon := LastColon(chunk);
    if colon < 0 then
      if chunk == [] then [] else [Goal(chunk, DEFAULT_GOAL_WEIGHT)]
    else
      var title := Strip(chunk[..colon]);
      var weight := ParseInt(Strip(chunk[colon + 1..]));
      if title == [] then [] else [Goal(title, if weight.Some? then weight.value else DEFAULT_GOAL_WEIGHT)]
  }

  function ParseChunks(chunks: seq<string>): seq<Goal> {
    if chunks == [] then []
    else ParseChunks(chunks[..|chunks| - 1]) + ParseChunk(chunks[|chunks| - 1])
  }

  function Parse(raw: string): seq<Goal> {
    if Blank(raw) then [] else ParseChunks(Split(raw))
  }

  /** One turn of the loop of parse_goals. */
  method ReadChunk(raw: string) returns (goal: Option<Goal>)
    ensures ParseChunk(raw) == if goal.Some? then [goal.value] else []
  {
    hide Strip, ParseInt, LastColon;
    var chunk := Strip(raw);
    if chunk == [] {
      return None;
    }
    var title, weight := chunk, DEFAULT_GOAL_WEIGHT;
    var colon := LastColon(chunk);
    if colon >= 0 {
      title := Strip(chunk[..colon]);
      var parsed := ParseInt(Strip(chunk[colon + 1..]));
      if parsed.Some? {
        weight := parsed.value;
      }
    }
    goal := if title == [] then None else Some(Goal(title, weight));
  }

  /** parse_goals: the loop of the source, proved against Parse. */
  method ParseGoals(raw: Option<string>) returns (goals: seq<Goal>)
    ensures goals == if raw.None? then [] else Parse(raw.value)
  {
    if raw.None? || raw.value == [] || Strip(raw.value) == [] {
      return [];
    }
    ParseIsLoop(raw.value);
    hide Parse, ParseChunks, ParseChunk, Strip, Split;
    goals := [];
    var chunks := Split(raw.value);
    NoChunks(chunks);
    for i := 0 to |chunks|
      invariant goals == ParseChunks(chunks[..i])
    {
      NextChunk(chunks, i);
      var goal := ReadChunk(chunks[i]);
      if goal.Some? {
        goals := goals + [goal.value];
      }
    }
  }

  lemma NoChunks(chunks: seq<string>)
    ensures ParseChunks(chunks[..0]) == []
    ensures chunks[..|chunks|] == chunks
  {
  }

  /** What the next chunk adds. */
  lemma NextChunk(chunks: seq<string>, i: nat)
    requires i < |chunks|
    ensures ParseChunk(chunks[i]) == [] ==> ParseChunks(chunks[..i + 1]) == ParseChunks(chunks[..i])
    ensures forall g :: ParseChunk(chunks[i]) == [g] ==> ParseChunks(chunks[..i + 1]) == ParseChunks(chunks[..i]) + [g]
  {
    hide ParseChunks, ParseChunk;
    ParseChunksSnoc(chunks[..i], chunks[i]);
    assert chunks[..i + 1] == chunks[..i] + [chunks[i]];
  }

  // ---- Concatenation ----

  lemma {:induction false} SplitJoined(a: string, b: string)
    ensures Split(a + ";" + b) == Split(a) + Split(b)
  {
    var s := a + ";" + b;
    if a == [] {
      assert s[1..] == b;
      assert Split(s) == [[]] + Split(b);
    } else {
      SplitJoined(a[1..], b);
      assert s[0] == a[0] && s[1..] == a[1..] + ";" + b;
      assert Split(a) == SplitStep(a[0], Split(a[1..]));
      assert Split(s) == SplitStep(a[0], Split(s[1..]));
      SplitStepAppend(a[0], Split(a[1..]), Split(b));
    }
  }

  /** What one more leading character does to a split. */
  function SplitStep(c: char, parts: seq<string>): seq<string>
    requires parts != []
  {
    if c == ';' then [[]] + parts else [[c] + parts[0]] + parts[1..]
  }

  lemma SplitStepAppend(c: char, parts: seq<string>, more: seq<string>)
    requires parts != []
    ensures SplitStep(c, parts + more) == SplitStep(c, parts) + more
  {
    if c == ';' {
      assert [[]] + (parts + more) == ([[]] + parts) + more;
    } else {
      var first := [[c] + parts[0]];
      assert (parts + more)[1..] == parts[1..] + more;
      assert first + (parts[1..] + more) == (first + parts[1..]) + more;
    }
  }

  lemma {:induction false} SplitPlain(s: string)
    requires ';' !in s
    ensures Split(s) == [s]
  {
    if s != [] {
      SplitPlain(s[1..]);
      assert [s[0]] + s[1..] == s;
    }
  }

  lemma {:induction false} ParseChunksSnoc(chunks: seq<string>, chunk: string)
    ensures ParseChunks(chunks + [chunk]) == ParseChunks(chunks) + ParseChunk(chunk)
  {
    var c := chunks + [chunk];
    assert c[..|c| - 1] == chunks;
  }

  lemma Associate(x: seq<Goal>, y: seq<Goal>, z: seq<Goal>)
    ensures (x + y) + z == x + (y + z)
  {
  }

  lemma {:induction false} ParseChunksJoined(a: seq<string>, b: seq<string>)
    ensures ParseChunks(a + b) == ParseChunks(a) + ParseChunks(b)
  {
    if b == [] {
      assert a + b == a;
    } else {
      var init, last := b[..|b| - 1], b[|b| - 1];
      calc {
        ParseChunks(a + b);
        { assert a + b == (a + init) + [last]; }
        ParseChunks((a + init) + [last]);
        { ParseChunksSnoc(a + init, last); }
        ParseChunks(a + init) + ParseChunk(last);
        { ParseChunksJoined(a, init); }
        (ParseChunks(a) + ParseChunks(init)) + ParseChunk(last);
        { Associate(ParseChunks(a), ParseChunks(init), ParseChunk(last)); }
        ParseChunks(a) + (ParseChunks(init) + ParseChunk(last));
        ParseChunks(a) + ParseChunks(b);
      }
    }
  }

  lemma ParseOneChunk(chunk: string)
    ensures ParseChunks([chunk]) == ParseChunk(chunk)
  {
    assert [chunk][..0] == [];
  }

  /** The early return for blank input agrees with the loop. */
  lemma {:induction false} ParseIsLoop(raw: string)
    ensures Parse(raw) == ParseChunks(Split(raw))
  {
    if Blank(raw) {
      BlankIffAllSpaces(raw);
      SplitPlain(raw);
      ParseOneChunk(raw);
    }
  }

  /** Parsing distributes over ";" for every pair of strings. */
  lemma ParseJoined(a: string, b: string)
    ensures Parse(a + ";" + b) == Parse(a) + Parse(b)
  {
    SplitJoined(a, b);
    ParseChunksJoined(Split(a), Split(b));
    ParseIsLoop(a);
    ParseIsLoop(b);
    ParseIsLoop(a + ";" + b);
  }

  // ---- One goal ----

  lemma StripParts(l: string, a: string, b: string, r: string)
    requires AllSpaces(l) && AllSpaces(r)
    requires a != [] ==> !IsSpace(a[0])
    requires b != [] ==> !IsSpace(b[|b| - 1])
    ensures Strip((l + a) + ":" + (b + r)) == a + ":" + b
  {
    var s, t := (l + a) + ":" + (b + r), a + ":" + b;
    assert s == l + t + r;
    hide Strip, AllSpaces;
    StripOnly(s, t, l, r);
  }

  lemma {:induction false} StripAround(u: string, w: string)
    ensures Strip(u + ":" + w) == LStrip(u) + ":" + RStrip(w)
  {
    LStripDropsSpaces(u);
    RStripDropsSpaces(w);
    LStripPart(u);
    RStripPart(w);
    hide LStrip, RStrip, Strip, AllSpaces, IsSpace;
    var a, b := LStrip(u), RStrip(w);
    var l, r := u[..|u| - |a|], w[|b|..];
    assert u == l + a && w == b + r;
    StripParts(l, a, b, r);
  }

  lemma {:induction false} StripOfLStrip(s: string)
    ensures Strip(LStrip(s)) == Strip(s)
  {
    LStripPart(s);
    hide RStrip;
  }

  lemma {:induction false} StripOfRStrip(s: string)
    ensures Strip(RStrip(s)) == Strip(s)
  {
    RStripDropsSpaces(s);
    RStripPart(s);
    var half := RStrip(s);
    StripFits(half);
    hide LStrip, RStrip, Strip, AllSpaces, Trimmed;
    var c, tail := Strip(half), s[|half|..];
    var l, r :| AllSpaces(l) && AllSpaces(r) && half == l + c + r;
    SpacesJoined(r, tail);
    assert s == half + tail;
    assert s == l + c + (r + tail);
    StripOnly(s, c, l, r + tail);
  }

  lemma SpacesJoined(a: string, b: string)
    requires AllSpaces(a) && AllSpaces(b)
    ensures AllSpaces(a + b)
  {
  }

  lemma {:induction false} ParseStripped(s: string)
    ensures ParseInt(Strip(RStrip(s))) == ParseInt(s)
  {
    StripOfRStrip(s);
    StripPart(s);
    StripTrimmed(Strip(s));
    hide Strip, RStrip, LimitedValue;
  }

  lemma {:induction false} LastColonIs(a: string, b: string)
    requires ':' !in b
    ensures LastColon(a + ":" + b) == |a|
  {
    var s := a + ":" + b;
    assert s[|a|] == ':';
    assert forall j :: |a| < j < |s| ==> s[j] in b;
  }

  lemma ChunkAtColon(s: string, a: string, b: string)
    requires Strip(s) == a + ":" + b && ':' !in b
    ensures ParseChunk(s) ==
            var title, weight := Strip(a), ParseInt(Strip(b));
            if title == [] then [] else [Goal(title, if weight.Some? then weight.value else DEFAULT_GOAL_WEIGHT)]
  {
    hide Strip, ParseInt, LastColon;
    LastColonIs(a, b);
    var chunk := a + ":" + b;
    assert chunk[..|a|] == a && chunk[|a| + 1..] == b;
  }

  /**
   A goal with a weight: the last colon of a chunk parts them. A weight that int() does not read
   becomes 3, and a chunk without a title is skipped.
   */
  lemma WeightedChunk(title: string, weight: string)
    requires ';' !in title && ';' !in weight && ':' !in weight
    ensures Parse(title + ":" + weight) ==
            if AllSpaces(title) then []
            else [Goal(Strip(title), if ParseInt(weight).Some? then ParseInt(weight).value else 3)]
  {
    var s := title + ":" + weight;
    var a, b := LStrip(title), RStrip(weight);
    ParseIsLoop(s);
    SplitPlain(s);
    ParseOneChunk(s);
    BlankIffAllSpaces(title);
    StripOfLStrip(title);
    ParseStripped(weight);
    RStripPart(weight);
    assert ':' !in b;
    hide LStrip, RStrip, Strip, ParseInt, LastColon, Split, Parse, ParseChunks, ParseChunk, AllSpaces;
    StripAround(title, weight);
    ChunkAtColon(s, a, b);
  }

  /** A goal without a weight gets 3; with ParseJoined, every text is parsed by these two rules. */
  lemma PlainChunk(title: string)
    requires ';' !in title && ':' !in title
    ensures Parse(title) == if AllSpaces(title) then [] else [Goal(Strip(title), 3)]
  {
    ParseIsLoop(title);
    SplitPlain(title);
    ParseOneChunk(title);
    BlankIffAllSpaces(title);
    StripPart(title);
    hide Strip, ParseInt, Split, Parse, ParseChunks;
    assert LastColon(Strip(title)) < 0;
  }

  // ---- Round trip with the documented format ----

  /** A goal that can be written: its title fits the format and str() prints its weight. */
  predicate WellTitled(g: Goal) {
    g.title != [] && Trimmed(g.title) && ';' !in g.title && Printable(g.weight)
  }

  predicate AllWellTitled(goals: seq<Goal>) {
    forall i :: 0 <= i < |goals| ==> WellTitled(goals[i])
  }

  function PrintGoal(g: Goal): string {
    g.title + ":" + IntToString(g.weight)
  }

  /** The documented format: goals separated by "; ". */
  function Print(goals: seq<Goal>): string {
    if goals == [] then ""
    else if |goals| == 1 then PrintGoal(goals[0])
    else PrintGoal(goals[0]) + ";" + (" " + Print(goals[1..]))
  }

  lemma StripLeadingSpace(s: string)
    ensures Strip(" " + s) == Strip(s)
  {
    assert (" " + s)[1..] == s;
  }

  lemma {:induction false} SplitLeadingSpace(s: string)
    ensures Split(" " + s) == [" " + Split(s)[0]] + Split(s)[1..]
  {
    assert (" " + s)[1..] == s;
  }

  lemma {:induction false} SameFirstChunk(a: string, b: string, rest: seq<string>)
    requires ParseChunk(a) == ParseChunk(b)
    ensures ParseChunks([a] + rest) == ParseChunks([b] + rest)
  {
    hide ParseChunk;
    ParseOneChunk(a);
    ParseOneChunk(b);
    ParseChunksJoined([a], rest);
    ParseChunksJoined([b], rest);
    hide ParseChunks;
  }

  lemma SpacedChunk(s: string)
    ensures ParseChunk(" " + s) == ParseChunk(s)
  {
    StripLeadingSpace(s);
    hide Strip, LastColon, ParseInt;
  }

  /** A leading space is never seen: the first chunk is stripped. */
  lemma ParseLeadingSpace(s: string)
    ensures Parse(" " + s) == Parse(s)
  {
    hide Split, Parse, ParseChunks, ParseChunk, Strip;
    var parts := Split(s);
    ParseIsLoop(s);
    ParseIsLoop(" " + s);
    SplitLeadingSpace(s);
    SpacedChunk(parts[0]);
    SameFirstChunk(" " + parts[0], parts[0], parts[1..]);
    assert parts == [parts[0]] + parts[1..];
  }

  lemma ParsePrintGoal(g: Goal)
    requires WellTitled(g)
    ensures Parse(PrintGoal(g)) == [g]
  {
    var s, n := PrintGoal(g), IntToString(g.weight);
    IntRoundTrip(g.weight);
    PrintedParts(g);
    StripTrimmed(s);
    StripTrimmed(g.title);
    StripTrimmed(n);
    SplitPlain(s);
    ParseIsLoop(s);
    ParseOneChunk(s);
    hide PrintGoal, IntToString, Strip, ParseInt, LastColon, Split, ParseChunks, Parse, Trimmed, NumberChars, Printable;
    assert ParseChunk(s) == [g];
  }

  /** Where the parts of a printed goal are found again. */
  lemma PrintedParts(g: Goal)
    requires WellTitled(g)
    ensures var s, n := PrintGoal(g), IntToString(g.weight);
            && Trimmed(s) && ';' !in s && |g.title| < |s| && LastColon(s) == |g.title|
            && s[..|g.title|] == g.title && s[|g.title| + 1..] == n
  {
    hide IntToString, ParseInt, Printable;
    var s, n := PrintGoal(g), IntToString(g.weight);
    IntRoundTrip(g.weight);
    assert s[0] == g.title[0] && s[|s| - 1] == n[|n| - 1];
    assert n[|n| - 1] in n;
    assert s[|g.title|] == ':';
    assert forall j :: |g.title| < j < |s| ==> s[j] in n;
  }

  /** Printing and parsing gives back every list of trimmed, non-empty, semicolon-free titles; colons are allowed. */
  lemma {:induction false} ParsePrint(goals: seq<Goal>)
    requires AllWellTitled(goals)
    ensures Parse(Print(goals)) == goals
  {
    if goals != [] {
      ParsePrintGoal(goals[0]);
      if |goals| > 1 {
        ParsePrint(goals[1..]);
        ParseLeadingSpace(Print(goals[1..]));
        ParseJoined(PrintGoal(goals[0]), " " + Print(goals[1..]));
        assert goals == [goals[0]] + goals[1..];
      }
    }
  }

  lemma ParsedChunkWellTitled(raw: string)
    requires ';' !in raw
    ensures AllWellTitled(ParseChunk(raw))
  {
    StripPart(raw);
    var chunk := Strip(raw);
    var colon := LastColon(chunk);
    assert Printable(DEFAULT_GOAL_WEIGHT);
    if colon >= 0 {
      StripPart(chunk[..colon]);
      ParsedIsPrintable(Strip(chunk[colon + 1..]));
    }
    hide Strip, ParseInt, LastColon, Printable;
  }

  lemma {:induction false} ParsedChunksWellTitled(chunks: seq<string>)
    requires forall i :: 0 <= i < |chunks| ==> ';' !in chunks[i]
    ensures AllWellTitled(ParseChunks(chunks))
  {
    if chunks != [] {
      ParsedChunksWellTitled(chunks[..|chunks| - 1]);
      ParsedChunkWellTitled(chunks[|chunks| - 1]);
    }
  }

  /** Every parsed list can be written back and read again: parse after print after parse is parse. */
  lemma ParsePrintParse(raw: string)
    ensures AllWellTitled(Parse(raw))
    ensures Parse(Print(Parse(raw))) == Parse(raw)
  {
    ParsedChunksWellTitled(Split(raw));
    ParsePrint(Parse(raw));
  }
}
