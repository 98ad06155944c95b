/** The bot commands that change something (app/commands.py): "/done" closes an item. */
module Commands {
  import opened Wrappers
  import opened PyText
  import opened Tables

  /** The length of the longest prefix without a space. */
  function WordLength(s: string): (n: nat)
    ensures n <= |s|
    ensures forall i :: 0 <= i < n ==> !IsSpace(s[i])
    ensures n < |s| ==> IsSpace(s[n])
  {
    if s == [] || IsSpace(s[0]) then 0 else 1 + WordLength(s[1..])
  }

  lemma {:induction false} LStripShorter(s: string)
    ensures |LStrip(s)| <= |s|
    ensures LStrip(s) != [] ==> !IsSpace(LStrip(s)[0])
  {
    if s != [] && IsSpace(s[0]) {
      LStripShorter(s[1..]);
    }
  }

  /** s.split() */
  function Words(s: string): seq<string>
    decreases |s|
  {
    LStripShorter(s);
    var t := LStrip(s);
    if t == [] then [] else [t[..WordLength(t)]] + Words(t[WordLength(t)..])
  }

  /** s.lower(), as far as ASCII goes: no other character is lowered to a letter of "done". */
  function Lower(s: string): string {
    if s == [] then []
    else [if 'A' <= s[0] <= 'Z' then (s[0] as int + 32) as char else s[0]] + Lower(s[1..])
  }

  function DropSlashes(s: string): string {
    if s != [] && s[0] == '/' then DropSlashes(s[1..]) else s
  }

  predicate IsDone(word: string) {
    DropSlashes(Lower(word)) == "done"
  }

  /** The item that the command closes, if it is "/done" with a number that int() reads. */
  function DoneTarget(text: string): Option<int> {
    var words := Words(Strip(text));
    if |words| < 2 || !IsDone(words[0]) || !IsDigits(words[1]) then None else ParseInt(words[1])
  }

  /** dispatch, seen from the tables. */
  function CommandEffect(db: Db, text: string): Db {
    var target := DoneTarget(text);
    if target.Some? && target.value >= 0 then ChangeStatus(db, target.value, DONE, true) else db
  }

  /** No command touches the inbox, and every item but the one it closes stays as it was. */
  lemma CommandKeeps(db: Db, text: string)
    ensures var after := CommandEffect(db, text);
            && after.inbox == db.inbox && after.now == db.now && |after.items| == |db.items|
            && (forall i :: 0 <= i < |db.items| ==>
                  after.items[i] == if DoneTarget(text) == Some(i) then db.items[i].(status := DONE) else db.items[i])
  {
    hide DoneTarget;
  }

  lemma {:induction false} WordAlone(w: string)
    requires w != [] && forall c :: c in w ==> !IsSpace(c)
    ensures Words(w) == [w] && WordLength(w) == |w|
  {
    assert w[0] in w;
    var n := WordLength(w);
    assert forall i :: 0 <= i < |w| ==> w[i] in w;
    assert w[..n] == w && w[n..] == [];
  }

  /** A word ends at the first space, and spaces between words do not count: with WordAlone, all of split(). */
  lemma {:induction false} WordsSplit(v: string, c: char, rest: string)
    requires IsSpace(c) && forall d :: d in v ==> !IsSpace(d)
    ensures Words(v + [c] + rest) == (if v == [] then [] else [v]) + Words(rest)
    ensures Words([]) == []
  {
    var s := v + [c] + rest;
    var n := WordLength(s);
    assert s[|v|] == c;
    assert forall i :: 0 <= i < |v| ==> s[i] == v[i] && v[i] in v;
    assert n == |v| && s[..n] == v && s[n..] == [c] + rest;
    SpaceFirst(c, rest);
    if v == [] {
      assert s == [c] + rest;
    }
    hide WordLength;
  }

  lemma {:induction false} SpaceFirst(c: char, rest: string)
    requires IsSpace(c)
    ensures LStrip([c] + rest) == LStrip(rest) && Words([c] + rest) == Words(rest)
  {
    assert ([c] + rest)[1..] == rest;
  }

  lemma {:induction false} TwoWords(v: string, w: string)
    requires v != [] && w != [] && (forall c :: c in v ==> !IsSpace(c)) && forall c :: c in w ==> !IsSpace(c)
    ensures Words(v + " " + w) == [v, w]
  {
    hide Words;
    WordsSplit(v, ' ', w);
    WordAlone(w);
    assert v + " " + w == v + [' '] + w;
  }

  lemma DigitsAreNoSpaces(s: string)
    requires s != [] && forall c :: c in s ==> '0' <= c <= '9'
    ensures forall c :: c in s ==> !IsSpace(c)
    ensures !IsSpace(s[0]) && !IsSpace(s[|s| - 1])
  {
    assert s[0] in s && s[|s| - 1] in s;
  }

  lemma DoneWords(w: string)
    requires w != [] && forall c :: c in w ==> '0' <= c <= '9'
    ensures Words(Strip("/done " + w)) == ["/done", w]
  {
    hide Words;
    var v := "/done";
    DigitsAreNoSpaces(w);
    TwoWords(v, w);
    var s := v + " " + w;
    assert "/done " + w == s;
    assert s[0] == '/' && s[|s| - 1] == w[|w| - 1];
    StripTrimmed(s);
  }

  /** "/done" and a printed number close that item. */
  lemma DoneCommand(n: nat)
    requires Printable(n)
    ensures DoneTarget("/done " + IntToString(n)) == Some(n)
  {
    hide Words, Strip, ParseInt, IsDigits, IsDone, NatToString, Printable;
    IntRoundTrip(n);
    assert IntToString(n) == NatToString(n);
    DoneWords(NatToString(n));
    DoneWord();
  }

  // ---- No other command closes anything ----

  /** "done" in letters of either case, after any number of slashes. */
  predicate SpellsDone(w: string) {
    && |w| >= 4
    && w[|w| - 4] in "dD" && w[|w| - 3] in "oO" && w[|w| - 2] in "nN" && w[|w| - 1] in "eE"
    && forall i :: 0 <= i < |w| - 4 ==> w[i] == '/'
  }

  lemma {:induction false} LowerAt(s: string)
    ensures |Lower(s)| == |s|
    ensures forall i :: 0 <= i < |s| ==> Lower(s)[i] == if 'A' <= s[i] <= 'Z' then (s[i] as int + 32) as char else s[i]
  {
    if s != [] {
      LowerAt(s[1..]);
    }
  }

  lemma {:induction false} SlashesPart(s: string)
    ensures |DropSlashes(s)| <= |s| && DropSlashes(s) == s[|s| - |DropSlashes(s)|..]
    ensures forall i :: 0 <= i < |s| - |DropSlashes(s)| ==> s[i] == '/'
  {
    if s != [] && s[0] == '/' {
      SlashesPart(s[1..]);
      hide DropSlashes;
    }
  }

  lemma {:induction false} SlashesOff(s: string, k: nat)
    requires k < |s| && s[k] != '/' && forall i :: 0 <= i < k ==> s[i] == '/'
    ensures DropSlashes(s) == s[k..]
  {
    if k > 0 {
      SlashesOff(s[1..], k - 1);
    }
  }

  lemma IsDoneIff(w: string)
    ensures IsDone(w) <==> SpellsDone(w)
  {
    var s, n := Lower(w), |w|;
    LowerAt(w);
    SlashesPart(s);
    hide Lower, DropSlashes;
    var t := DropSlashes(s);
    if t == "done" {
      assert s[n - 4] == t[0] && s[n - 3] == t[1] && s[n - 2] == t[2] && s[n - 1] == t[3];
    }
    if SpellsDone(w) {
      SlashesOff(s, n - 4);
      assert s[n - 4..] == "done";
    }
  }

  /**
   An item is closed only by a text whose first word spells "done" behind its slashes and whose
   second is a number that int() reads; any other text leaves the tables alone.
   */
  lemma OnlyDoneCloses(db: Db, text: string)
    ensures var words := Words(Strip(text));
            var closing := |words| >= 2 && SpellsDone(words[0]) && IsDigits(words[1]) && ParseInt(words[1]).Some?;
            && (!closing ==> CommandEffect(db, text) == db)
            && (closing ==> DoneTarget(text) == ParseInt(words[1]))
  {
    var words := Words(Strip(text));
    if |words| >= 2 {
      IsDoneIff(words[0]);
    }
    hide Words, Strip, ParseInt, IsDigits, IsDone, ChangeStatus, SpellsDone;
  }

  lemma DoneWord()
    ensures IsDone("/done")
  {
    var s := "/done";
    assert s[1..] == "done" && s[1..][1..] == "one" && s[1..][1..][1..] == "ne";
    assert "ne"[1..] == "e" && "e"[1..] == "";
    assert Lower("e") == "e" && Lower("ne") == "ne" && Lower("one") == "one" && Lower("done") == "done";
    assert Lower(s) == s;
    assert DropSlashes(s) == DropSlashes(s[1..]);
  }
}
