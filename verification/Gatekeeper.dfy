/**
 From one LLM answer to the item that is stored: the cleaning helpers and the two guards
 of app/triage.py. Capacity is counted in minutes: "remaining hours > 0" is "remaining minutes > 0".
 */
module Gatekeeper {
  import opened Wrappers
  import opened PyText

  const MAX_TITLE_LENGTH := 200
  const MIN_SCORE := 0
  const MAX_SCORE := 25
  const DO_NOW := "do_now"
  const DEFAULT_DECISION := "schedule"
  const VALID_DECISIONS := ["do_now", "schedule", "delegate", "archive", "decline"]
  const VALID_ITEM_TYPES := ["task", "note", "idea", "event"]
  /** The largest value of an int column. */
  const MAX_INT4 := 2147483647
  const RESCHEDULED := "به «زمان‌بندی» تغییر یافت."
  const WEEK_FULL := "ظرفیت این هفته پر است؛ "
  const NOTHING_DROPPED := "چیزی برای کنار گذاشتن مشخص نشد؛ "
  const CAPACITY_NOTE := WEEK_FULL + RESCHEDULED
  const TRADE_OFF_NOTE := NOTHING_DROPPED + RESCHEDULED

  /** A JSON value as the model may send it; JOther is a float, a list or an object. */
  datatype Json = JNull | JBool(b: bool) | JInt(n: int) | JStr(s: string) | JOther

  /** The answer of the model; the deadline is given after date parsing, as a day number. */
  datatype Answer = Answer(
    kind: Json, title: Json, project: Json, goalKey: Json, effort: Json, deadline: Option<int>,
    score: Json, decision: Json, reason: Json, drop: Json, commitment: Json)

  /** The columns of a new items row, with its meta object spelled out. */
  datatype Draft = Draft(
    kind: string, title: string, project: Option<string>, goalKey: Option<string>,
    effort: Option<int>, deadline: Option<int>, score: Option<int>,
    decision: string, reason: Option<string>, commitment: Option<string>,
    drop: Option<string>, missingTradeOff: bool, capacityCapped: bool)

  function CleanText(v: Json): Option<string> {
    if v.JStr? && !Blank(v.s) then Some(Strip(v.s)) else None
  }

  function DropDashes(s: string): string {
    if s != [] && s[0] == '-' then DropDashes(s[1..]) else s
  }

  /** The number in a JSON value, if it has one; int() raises on text such as "--5". */
  function CleanNumber(v: Json): Result<Option<int>> {
    match v
    case JInt(n) => Returned(Some(n))
    case JStr(s) =>
      var t := Strip(s);
      if !IsDigits(DropDashes(t)) then Returned(None)
      else if ParseInt(t).None? then Raised
      else Returned(ParseInt(t))
    case _ => Returned(None)
  }

  function CleanEffort(v: Json): Result<Option<int>> {
    match CleanNumber(v)
    case Returned(Some(n)) => Returned(if n > 0 then Some(n) else None)
    case other => other
  }

  function CleanScore(v: Json): Result<Option<int>> {
    match CleanNumber(v)
    case Returned(Some(n)) =>
      var low := if n < MAX_SCORE then n else MAX_SCORE;
      Returned(Some(if low > MIN_SCORE then low else MIN_SCORE))
    case other => other
  }

  function CleanDecision(v: Json): string {
    if v.JStr? && v.s in VALID_DECISIONS then v.s else DEFAULT_DECISION
  }

  function CleanKind(v: Json): string {
    if v.JStr? && v.s in VALID_ITEM_TYPES then v.s else "note"
  }

  function WithNote(reason: Option<string>, note: string): Option<string> {
    if reason.Some? && reason.value != "" then Some(reason.value + " — " + note) else Some(note)
  }

  /** A decision, its reason, and whether the guard changed it. */
  type Ruling = (string, Option<string>, bool)

  function RequireTradeOff(decision: string, reason: Option<string>, drop: Option<string>): Ruling {
    if decision != DO_NOW || drop.Some? then (decision, reason, false)
    else (DEFAULT_DECISION, WithNote(reason, TRADE_OFF_NOTE), true)
  }

  function CapacityGuard(decision: string, reason: Option<string>, remaining: int): Ruling {
    if decision != DO_NOW || remaining > 0 then (decision, reason, false)
    else (DEFAULT_DECISION, WithNote(reason, CAPACITY_NOTE), true)
  }

  function Take(s: string, n: nat): string {
    if |s| <= n then s else s[..n]
  }

  /** Everything triage_inbox_row computes between the answer of the model and the insert. */
  function Judge(a: Answer, text: string, remaining: int): Result<Draft> {
    var effort, score := CleanEffort(a.effort), CleanScore(a.score);
    if effort.Raised? || score.Raised? then Raised
    else
      var title := CleanText(a.title);
      var drop := CleanText(a.drop);
      var traded := RequireTradeOff(CleanDecision(a.decision), CleanText(a.reason), drop);
      var capped := CapacityGuard(traded.0, traded.1, remaining);
      Returned(Draft(
        CleanKind(a.kind), Take(if title.Some? then title.value else Strip(text), MAX_TITLE_LENGTH),
        CleanText(a.project), CleanText(a.goalKey), effort.value, a.deadline, score.value,
        capped.0, capped.1, CleanText(a.commitment), drop, traded.2, capped.2))
  }

  // ---- What the guards guarantee ----

  /** The answer asks for "do it now". */
  predicate AsksDoNow(a: Answer) {
    a.decision == JStr("do_now")
  }

  /** The answer names something to give up. */
  predicate NamesTradeOff(a: Answer) {
    a.drop.JStr? && !Blank(a.drop.s)
  }

  /** What is kept of a free-text field: the text without surrounding spaces, nothing when only spaces are left. */
  ghost predicate Kept(v: Json, t: Option<string>) {
    match t
    case None => v.JStr? ==> AllSpaces(v.s)
    case Some(u) => v.JStr? && u != "" && IsStripOf(u, v.s)
  }

  lemma CleanTextKeeps(v: Json)
    ensures Kept(v, CleanText(v))
  {
    if v.JStr? {
      StripIsUnique(v.s, Strip(v.s));
      BlankIffAllSpaces(v.s);
    }
  }

  /** A decision other than "do it now" is stored as it was sent; anything that is no decision becomes "schedule". */
  predicate KeptDecision(v: Json, stored: string) {
    if v.JStr? && v.s in ["schedule", "delegate", "archive", "decline"] then v == JStr(stored) else stored == "schedule"
  }

  lemma DecisionIsKept(v: Json)
    ensures v == JStr("do_now") <==> CleanDecision(v) == "do_now"
    ensures v != JStr("do_now") ==> KeptDecision(v, CleanDecision(v))
  {
  }

  /**
   The gate, as a rule: "do it now" is stored exactly when it was asked for, a trade-off was
   named and capacity was left. A refused request becomes "schedule" and carries the one flag
   that says why, the missing trade-off taking precedence; every other decision is untouched.
   */
  lemma GateRule(a: Answer, text: string, remaining: int)
    requires Judge(a, text, remaining).Returned?
    ensures var d := Judge(a, text, remaining).value;
            && (d.decision == "do_now" <==> AsksDoNow(a) && NamesTradeOff(a) && remaining > 0)
            && (d.missingTradeOff <==> AsksDoNow(a) && !NamesTradeOff(a))
            && (d.capacityCapped <==> AsksDoNow(a) && NamesTradeOff(a) && remaining <= 0)
            && (d.missingTradeOff || d.capacityCapped ==> d.decision == "schedule" && d.reason.Some?)
            && (!AsksDoNow(a) ==> KeptDecision(a.decision, d.decision) && Kept(a.reason, d.reason))
            && (d.decision == "do_now" ==> d.drop.Some? && d.drop.value != "")
  {
    DecisionIsKept(a.decision);
    CleanTextKeeps(a.reason);
    hide CleanDecision, Kept, KeptDecision;
    var traded := RequireTradeOff(CleanDecision(a.decision), CleanText(a.reason), CleanText(a.drop));
    assert traded.0 == DO_NOW <==> AsksDoNow(a) && NamesTradeOff(a);
  }

  /** The stored numbers are in range and the title is usable, whatever the model sent. */
  lemma DraftInRange(a: Answer, text: string, remaining: int)
    requires Judge(a, text, remaining).Returned? && !Blank(text)
    ensures var d := Judge(a, text, remaining).value;
            && (d.effort.Some? ==> d.effort.value > 0)
            && (d.score.Some? ==> 0 <= d.score.value <= 25)
            && d.kind in VALID_ITEM_TYPES && d.decision in VALID_DECISIONS
            && var chosen := if a.title.JStr? && !Blank(a.title.s) then Strip(a.title.s) else Strip(text);
               0 < |d.title| == Min(200, |chosen|) && d.title <= chosen
  {
    assert VALID_ITEM_TYPES[1] in VALID_ITEM_TYPES;
    assert VALID_DECISIONS[1] in VALID_DECISIONS;
  }

  /** A refused request keeps the reason of the model and ends in the note of the guard that refused it. */
  predicate Noted(model: Json, stored: string, note: string) {
    && note <= stored[|stored| - Min(|note|, |stored|)..]
    && (model.JStr? && !Blank(model.s) ==> Strip(model.s) <= stored)
  }

  function Min(a: int, b: int): int {
    if a < b then a else b
  }

  function Max(a: int, b: int): int {
    if a > b then a else b
  }

  /** Every field of the draft comes from the field of the answer that it belongs to. */
  lemma DraftCarriesAnswer(a: Answer, text: string, remaining: int)
    requires Judge(a, text, remaining).Returned?
    ensures var d := Judge(a, text, remaining).value;
            && Kept(a.project, d.project) && Kept(a.goalKey, d.goalKey)
            && Kept(a.commitment, d.commitment) && Kept(a.drop, d.drop) && d.deadline == a.deadline
            && (a.effort.JInt? ==> d.effort == if a.effort.n > 0 then Some(a.effort.n) else None)
            && (a.score.JInt? && 0 <= a.score.n <= 25 ==> d.score == Some(a.score.n))
            && (a.score.JInt? && a.score.n < 0 ==> d.score == Some(0))
            && (a.score.JInt? && a.score.n > 25 ==> d.score == Some(25))
            && (if a.kind.JStr? && a.kind.s in ["task", "note", "idea", "event"] then a.kind == JStr(d.kind)
                else d.kind == "note")
            && (!AsksDoNow(a) ==> KeptDecision(a.decision, d.decision))
            && (!d.missingTradeOff && !d.capacityCapped ==> Kept(a.reason, d.reason))
            && (!a.effort.JInt? && !a.effort.JStr? ==> d.effort.None?)
            && (!a.score.JInt? && !a.score.JStr? ==> d.score.None?)
            && (d.missingTradeOff ==> d.reason.Some? && Noted(a.reason, d.reason.value, TRADE_OFF_NOTE))
            && (d.capacityCapped ==> d.reason.Some? && Noted(a.reason, d.reason.value, CAPACITY_NOTE))
  {
    hide ParseInt, IsDigits, DropDashes, Strip, Blank;
    CleanTextKeeps(a.project);
    CleanTextKeeps(a.goalKey);
    CleanTextKeeps(a.commitment);
    CleanTextKeeps(a.drop);
    CleanTextKeeps(a.reason);
    DecisionIsKept(a.decision);
    NoteIsKept(a.reason, TRADE_OFF_NOTE);
    NoteIsKept(a.reason, CAPACITY_NOTE);
    hide Kept, KeptDecision, Noted, CleanText, WithNote, CleanDecision;
  }

  lemma NoteIsKept(model: Json, note: string)
    ensures var stored := WithNote(CleanText(model), note);
            stored.Some? && Noted(model, stored.value, note)
  {
    var stored := WithNote(CleanText(model), note).value;
    assert stored[|stored| - |note|..] == note;
  }

  lemma {:induction false} DropDashesSmall(s: string)
    ensures |DropDashes(s)| <= |s|
    ensures s != [] && s[0] != '-' ==> DropDashes(s) == s
  {
    if s != [] && s[0] == '-' {
      DropDashesSmall(s[1..]);
    }
  }

  lemma DashesOfNumber(n: int)
    ensures IsDigits(DropDashes(IntToString(n)))
  {
    var digits := NatToString(if n < 0 then -n else n);
    assert digits[0] in digits && '0' <= digits[0] <= '9';
    DropDashesSmall(digits);
    hide IsDigits, NatToString;
    if n < 0 {
      assert IntToString(n)[1..] == digits;
      assert DropDashes(IntToString(n)) == DropDashes(digits);
    }
  }

  /** A number sent as text is understood like the number itself, as far as int() reads it. */
  lemma NumberAsText(n: int)
    ensures CleanNumber(JStr(IntToString(n))) == if Printable(n) then CleanNumber(JInt(n)) else Raised
  {
    hide IntToString, ParseInt, IsDigits, Printable, DropDashes, Trimmed, NumberChars;
    IntRoundTrip(n);
    StripTrimmed(IntToString(n));
    DashesOfNumber(n);
    hide Strip;
  }

  /** So the draft is the same whether effort and score are sent as numbers or as their texts. */
  lemma TextSameDraft(a: Answer, text: string, remaining: int, n: int)
    ensures Judge(a.(effort := JStr(IntToString(n))), text, remaining) ==
            if Printable(n) then Judge(a.(effort := JInt(n)), text, remaining) else Raised
    ensures Judge(a.(score := JStr(IntToString(n))), text, remaining) ==
            if Printable(n) then Judge(a.(score := JInt(n)), text, remaining) else Raised
  {
    NumberAsText(n);
    hide CleanNumber, IntToString, Printable;
  }

  /** Text that is no number at all, once its dashes are dropped, counts as no number. */
  lemma OtherTextIsNoNumber(a: Answer, text: string, remaining: int)
    requires Judge(a, text, remaining).Returned?
    ensures var d := Judge(a, text, remaining).value;
            && (a.effort.JStr? && !IsDigits(DropDashes(Strip(a.effort.s))) ==> d.effort.None?)
            && (a.score.JStr? && !IsDigits(DropDashes(Strip(a.score.s))) ==> d.score.None?)
            && (d.effort.Some? && a.effort.JStr? ==> ParseInt(Strip(a.effort.s)) == d.effort)
            && (d.score.Some? && a.score.JStr? ==>
                  var n := ParseInt(Strip(a.score.s));
                  n.Some? && d.score.value == Min(Max(n.value, 0), 25))
  {
    hide ParseInt, Strip, IsDigits, DropDashes;
  }

  // ---- What the database refuses ----

  /** PostgreSQL stores no NUL character, neither in a text nor in a JSON column. */
  predicate StorableText(s: string) {
    '\0' !in s
  }

  predicate StorableOption(t: Option<string>) {
    t.Some? ==> StorableText(t.value)
  }

  predicate StorableDraft(d: Draft) {
    && StorableText(d.title) && StorableOption(d.project) && StorableOption(d.goalKey)
    && StorableOption(d.reason) && StorableOption(d.commitment) && StorableOption(d.drop)
    && (d.effort.Some? ==> d.effort.value <= MAX_INT4)
  }

  predicate HoldsNul(v: Json) {
    v.JStr? && '\0' in v.s
  }

  /** What the title is cut from. */
  function ChosenTitle(a: Answer, text: string): string {
    if a.title.JStr? && !Blank(a.title.s) then Strip(a.title.s) else Strip(text)
  }

  predicate EffortTooLarge(v: Json) {
    var n := CleanNumber(v);
    n.Returned? && n.value.Some? && n.value.value > 2147483647
  }

  /** The answer leads to a row that the insert refuses. */
  predicate Unstorable(a: Answer, text: string) {
    || HoldsNul(a.project) || HoldsNul(a.goalKey) || HoldsNul(a.reason) || HoldsNul(a.commitment) || HoldsNul(a.drop)
    || '\0' in Take(ChosenTitle(a, text), MAX_TITLE_LENGTH)
    || EffortTooLarge(a.effort)
  }

  lemma NulIsKept(v: Json)
    ensures StorableOption(CleanText(v)) <==> !HoldsNul(v)
  {
    if v.JStr? {
      BlankIffAllSpaces(v.s);
      StripFits(v.s);
      var t := Strip(v.s);
      hide Strip;
      assert IsStripOf(t, v.s);
      var l, r :| AllSpaces(l) && AllSpaces(r) && v.s == l + t + r;
      assert !IsSpace('\0');
      assert '\0' in v.s <==> '\0' in l || '\0' in t || '\0' in r;
    }
  }

  lemma PartsAreStorable()
    ensures StorableText(RESCHEDULED) && StorableText(WEEK_FULL) && StorableText(NOTHING_DROPPED)
  {
  }

  lemma NotesAreStorable()
    ensures StorableText(TRADE_OFF_NOTE) && StorableText(CAPACITY_NOTE)
  {
    PartsAreStorable();
  }

  lemma NoteAddsNoNul(reason: Option<string>, note: string)
    requires StorableText(note)
    ensures WithNote(reason, note).Some? && (StorableOption(WithNote(reason, note)) <==> StorableOption(reason))
  {
    if reason.Some? {
      var stored := reason.value + " — " + note;
      assert '\0' in stored <==> '\0' in reason.value || '\0' in " — " || '\0' in note;
    }
  }

  /** Whether the insert takes the draft can be told from the answer and the text. */
  lemma StorableIff(a: Answer, text: string, remaining: int)
    requires Judge(a, text, remaining).Returned?
    ensures StorableDraft(Judge(a, text, remaining).value) <==> !Unstorable(a, text)
  {
    NulIsKept(a.project);
    NulIsKept(a.goalKey);
    NulIsKept(a.reason);
    NulIsKept(a.commitment);
    NulIsKept(a.drop);
    NotesAreStorable();
    NoteAddsNoNul(CleanText(a.reason), TRADE_OFF_NOTE);
    NoteAddsNoNul(CleanText(a.reason), CAPACITY_NOTE);
    TitleIsCut(a, text, remaining);
    hide StorableOption, HoldsNul, StorableText, WithNote, Take, ChosenTitle, CleanNumber, CleanScore, CleanKind;
    var d := Judge(a, text, remaining).value;
    assert StorableOption(d.reason) <==> StorableOption(CleanText(a.reason)) by {
      hide CleanText;
    }
  }

  lemma TitleIsCut(a: Answer, text: string, remaining: int)
    requires Judge(a, text, remaining).Returned?
    ensures var d := Judge(a, text, remaining).value;
            && (StorableText(d.title) <==> '\0' !in Take(ChosenTitle(a, text), MAX_TITLE_LENGTH))
            && ((d.effort.Some? ==> d.effort.value <= MAX_INT4) <==> !EffortTooLarge(a.effort))
  {
    hide Strip, CleanScore, CleanDecision, RequireTradeOff, CapacityGuard, Take;
  }

  // ---- When cleaning raises ----

  /**
   Text that isdigit() lets through once its leading dashes are dropped, and int() refuses: two
   or more dashes, a digit that is not decimal (as in a superscript), or too many digits.
   */
  predicate Unreadable(v: Json) {
    && v.JStr?
    && var t := Strip(v.s);
       var u := DropDashes(t);
       IsDigits(u) && (|t| >= |u| + 2 || !AllDecimal(u) || |u| > 4300)
  }

  lemma {:induction false} DashesPart(s: string)
    ensures |DropDashes(s)| <= |s| && DropDashes(s) == s[|s| - |DropDashes(s)|..]
    ensures forall i :: 0 <= i < |s| - |DropDashes(s)| ==> s[i] == '-'
  {
    if s != [] && s[0] == '-' {
      DashesPart(s[1..]);
    }
  }

  lemma DigitsSnoc(init: string, last: char)
    ensures IsDigits(init + [last]) ==> IsDigit(last) && last != '_' && (init == [] || IsDigits(init))
    ensures AllDecimal(init + [last]) <==> AllDecimal(init) && DigitValue(last).Some?
  {
    hide DigitValue, IsDigit;
    var s := init + [last];
    assert s[|init|] == last && last in s;
    assert forall c :: c in s <==> c in init || c == last;
  }

  /** Among texts of digits, those of decimal digits have a value. */
  lemma {:induction false} DecimalHasValue(s: string)
    requires IsDigits(s)
    ensures DigitsValue(s).Some? <==> AllDecimal(s)
    ensures DigitCount(s) == |s|
  {
    var init, last := s[..|s| - 1], s[|s| - 1];
    assert s == init + [last];
    DigitsSnoc(init, last);
    if init == [] {
      assert AllDecimal(init);
      hide DigitValue, IsDigit, IsDigits, AllDecimal;
    } else {
      DecimalHasValue(init);
      assert init[|init| - 1] in init && init[|init| - 1] == s[|s| - 2] && s[|s| - 2] != '_';
      hide DigitValue, IsDigit, IsDigits, AllDecimal;
    }
  }

  /** A text that begins with a dash has no value of its own. */
  lemma {:induction false} DashHasNoValue(s: string)
    requires s != [] && s[0] == '-'
    ensures DigitsValue(s).None?
  {
    if |s| > 1 {
      DashHasNoValue(s[..|s| - 1]);
      if |s| > 2 {
        DashHasNoValue(s[..|s| - 2]);
      } else {
        assert s[..0] == [];
      }
    }
  }

  /** int() on digits with some leading dashes. */
  lemma DashedParse(t: string, u: string)
    requires Trimmed(t) && IsDigits(u) && |u| <= |t| && u == t[|t| - |u|..]
    requires forall i :: 0 <= i < |t| - |u| ==> t[i] == '-'
    ensures ParseInt(t).Some? <==> |t| <= |u| + 1 && AllDecimal(u) && |u| <= MAX_INT_DIGITS
  {
    StripTrimmed(t);
    DecimalHasValue(u);
    assert u[0] in u && IsDigit(u[0]);
    hide Strip, DigitsValue, DigitCount, IsDigits, AllDecimal, IsDigit, Trimmed;
    if |t| == |u| {
      assert t == u;
    } else if |t| == |u| + 1 {
      assert t[1..] == u;
    } else {
      DashHasNoValue(t[1..]);
    }
  }

  lemma NumberRaises(v: Json)
    ensures CleanNumber(v).Raised? <==> Unreadable(v)
  {
    if v.JStr? {
      DigitsAfterDashes(v.s);
    }
    hide Strip, DropDashes, ParseInt, AllDecimal, IsDigits;
  }

  lemma DigitsAfterDashes(s: string)
    ensures var t := Strip(s);
            var u := DropDashes(t);
            IsDigits(u) ==> (ParseInt(t).Some? <==> |t| <= |u| + 1 && AllDecimal(u) && |u| <= MAX_INT_DIGITS)
  {
    hide ParseInt, AllDecimal, IsDigits;
    StripPart(s);
    DashesPart(Strip(s));
    hide Strip, DropDashes, Trimmed;
    if IsDigits(DropDashes(Strip(s))) {
      DashedParse(Strip(s), DropDashes(Strip(s)));
    }
  }

  /** Triage raises on an answer exactly when its effort or score is such text. */
  lemma JudgeRaises(a: Answer, text: string, remaining: int)
    ensures Judge(a, text, remaining).Raised? <==> Unreadable(a.effort) || Unreadable(a.score)
  {
    NumberRaises(a.effort);
    NumberRaises(a.score);
    hide CleanNumber, Unreadable;
  }

  /** A superscript digit is a digit to isdigit() and none to int(). */
  lemma SuperscriptIsNoDecimal()
    ensures IsDigit('²') && DigitValue('²').None?
  {
    assert OTHER_DIGITS[0] == (0xb2, 0xb3);
  }

  /** One text of each kind: two dashes, a superscript, and more digits than the limit. */
  lemma RaisingTexts(long: string)
    requires |long| > MAX_INT_DIGITS && forall c :: c in long ==> '0' <= c <= '9'
    ensures Unreadable(JStr("--5")) && Unreadable(JStr("²")) && Unreadable(JStr(long))
  {
    SuperscriptIsNoDecimal();
    StripTrimmed("--5");
    StripTrimmed("²");
    assert long[0] in long && long[|long| - 1] in long;
    StripTrimmed(long);
    DropDashesSmall("²");
    DropDashesSmall(long);
    TwoDashes();
    hide Strip, DropDashes, DigitValue, IsDigit;
    var superscript := "²";
    assert superscript[0] in superscript;
  }

  lemma TwoDashes()
    ensures DropDashes("--5") == "5" && IsDigits("5")
  {
    hide DigitValue;
    var s := "--5";
    assert s[1..] == "-5" && s[1..][1..] == "5";
  }
}
