/**
 The once-a-day gate of the review and the morning brief (app/review.py and their loops in
 app/main.py). Days are numbered; a send time is the text of a setting, compared as text.
 */
module DailyGate {
  import opened Wrappers
  import opened PyText

  // ---- Comparing "HH:MM" as text ----

  /** a <= b for Python strings. */
  predicate TextAtMost(a: string, b: string) {
    a == [] || (b != [] && (a[0] < b[0] || (a[0] == b[0] && TextAtMost(a[1..], b[1..]))))
  }

  function Digit(n: int): char
    requires 0 <= n < 10
  {
    (0x30 + n) as char
  }

  /** strftime("%H:%M") */
  function Clock(minutes: int): string
    requires 0 <= minutes < 1440
  {
    var h, m := minutes / 60, minutes % 60;
    [Digit(h / 10), Digit(h % 10), ':', Digit(m / 10), Digit(m % 10)]
  }

  /** The values of the four digits are those of a time of day. */
  predicate TimeDigits(s: string)
    requires |s| == 5
  {
    && (s[0] == '0' || s[0] == '1' || s[0] == '2')
    && DigitValue(s[1]).Some? && (s[0] == '2' ==> '0' <= s[1] <= '3')
    && s[2] == ':' && '0' <= s[3] <= '5' && DigitValue(s[4]).Some?
  }

  /** What validate_time lets into the setting: [01]\d or 2[0-3], a colon, [0-5]\d, where \d is any decimal digit. */
  predicate ValidTime(s: string) {
    |s| == 5 && TimeDigits(s)
  }

  function Minutes(s: string): (n: int)
    requires ValidTime(s)
    ensures 0 <= n < 1440
  {
    60 * (10 * DigitValue(s[0]).value + DigitValue(s[1]).value) + 10 * DigitValue(s[3]).value + DigitValue(s[4]).value
  }

  predicate Ascii(s: string) {
    forall c :: c in s ==> c < '\U{0080}'
  }

  /** The send time has come: now.strftime("%H:%M") >= send_time. */
  predicate TimeReached(minutes: int, sendTime: string)
    requires 0 <= minutes < 1440
  {
    TextAtMost(sendTime, Clock(minutes))
  }

  lemma {:induction false} TextOfFive(a: string, b: string)
    requires |a| == |b| == 5
    ensures TextAtMost(a, b) <==>
            || a[0] < b[0]
            || (a[0] == b[0] && (a[1] < b[1]
            || (a[1] == b[1] && (a[2] < b[2]
            || (a[2] == b[2] && (a[3] < b[3]
            || (a[3] == b[3] && a[4] <= b[4])))))))
  {
    TextTail(a, b, 4);
    TextTail(a, b, 3);
    TextTail(a, b, 2);
    TextTail(a, b, 1);
    assert a[0..] == a && b[0..] == b;
    TextTail(a, b, 0);
  }

  lemma TextTail(a: string, b: string, i: nat)
    requires |a| == |b| == 5 && i < 5
    ensures TextAtMost(a[i..], b[i..]) <==> a[i] < b[i] || (a[i] == b[i] && TextAtMost(a[i + 1..], b[i + 1..]))
    ensures i == 4 ==> (TextAtMost(a[i..], b[i..]) <==> a[i] <= b[i])
  {
    assert a[i..][1..] == a[i + 1..] && b[i..][1..] == b[i + 1..];
  }

  /** On ASCII send times, the comparison of texts is the comparison of times. */
  lemma AsciiOrder(sendTime: string, minutes: int)
    requires ValidTime(sendTime) && Ascii(sendTime) && 0 <= minutes < 1440
    ensures TimeReached(minutes, sendTime) <==> Minutes(sendTime) <= minutes
  {
    var c := Clock(minutes);
    assert sendTime[1] in sendTime && sendTime[4] in sendTime;
    TextOfFive(sendTime, c);
    var h, m := minutes / 60, minutes % 60;
    assert minutes == 60 * (10 * (h / 10) + h % 10) + 10 * (m / 10) + m % 10;
  }

  /**
   The validator also accepts non-ASCII digits. The gate opens at the meant time for every
   clock reading exactly when the accepted send time is ASCII.
   */
  lemma GateIsRightIffAscii(sendTime: string)
    requires ValidTime(sendTime)
    ensures Ascii(sendTime) <==>
            forall minutes :: 0 <= minutes < 1440 ==> (TimeReached(minutes, sendTime) <==> Minutes(sendTime) <= minutes)
  {
    if Ascii(sendTime) {
      forall minutes | 0 <= minutes < 1440
        ensures TimeReached(minutes, sendTime) <==> Minutes(sendTime) <= minutes
      {
        AsciiOrder(sendTime, minutes);
      }
    } else {
      LateAtItsOwnTime(sendTime);
    }
  }

  /** A send time with another digit is not reached at the very minute it names. */
  lemma LateAtItsOwnTime(sendTime: string)
    requires ValidTime(sendTime) && !Ascii(sendTime)
    ensures !TimeReached(Minutes(sendTime), sendTime)
  {
    var c := Clock(Minutes(sendTime));
    ClockShowsDigits(sendTime);
    assert !(c[1] == sendTime[1] && c[4] == sendTime[4]) by {
      assert sendTime == [sendTime[0], sendTime[1], sendTime[2], sendTime[3], sendTime[4]];
    }
    TextOfFive(sendTime, c);
    hide TextAtMost, Clock, DigitValue;
  }

  /** The clock at the time that is meant shows the digits that are meant. */
  lemma ClockShowsDigits(sendTime: string)
    requires ValidTime(sendTime)
    ensures var c := Clock(Minutes(sendTime));
            && c[0] == sendTime[0] && c[2] == sendTime[2] && c[3] == sendTime[3]
            && c[1] == Digit(DigitValue(sendTime[1]).value) && c[4] == Digit(DigitValue(sendTime[4]).value)
            && (sendTime[1] < '\U{0080}' ==> c[1] == sendTime[1]) && (sendTime[4] < '\U{0080}' ==> c[4] == sendTime[4])
  {
    hide DigitValue;
    var a, b := DigitValue(sendTime[0]).value, DigitValue(sendTime[1]).value;
    var d, e := DigitValue(sendTime[3]).value, DigitValue(sendTime[4]).value;
    assert Minutes(sendTime) == 60 * (10 * a + b) + (10 * d + e);
    assert Minutes(sendTime) / 60 == 10 * a + b && Minutes(sendTime) % 60 == 10 * d + e;
  }

  /** The ASCII texts that the validator accepts are exactly the texts that a clock shows. */
  lemma AcceptedIffShown(s: string)
    ensures ValidTime(s) && Ascii(s) <==> exists minutes :: 0 <= minutes < 1440 && s == Clock(minutes)
  {
    if ValidTime(s) && Ascii(s) {
      ClockShowsDigits(s);
      var c := Clock(Minutes(s));
      assert s[1] in s && s[4] in s;
      assert s == [s[0], s[1], s[2], s[3], s[4]];
      assert s == c;
    }
    forall minutes | 0 <= minutes < 1440 && s == Clock(minutes)
      ensures ValidTime(s) && Ascii(s)
    {
      ClockReadsBack(minutes);
    }
  }

  /** The time that a clock shows is read back, and two digits each show the hour and the minute. */
  lemma ClockReadsBack(minutes: int)
    requires 0 <= minutes < 1440
    ensures var c := Clock(minutes);
            && ValidTime(c) && Ascii(c) && Minutes(c) == minutes
            && 10 * (c[0] as int - '0' as int) + (c[1] as int - '0' as int) == minutes / 60
            && 10 * (c[3] as int - '0' as int) + (c[4] as int - '0' as int) == minutes % 60
  {
    var h, m := minutes / 60, minutes % 60;
    assert h == 10 * (h / 10) + h % 10 && m == 10 * (m / 10) + m % 10;
    assert minutes == 60 * h + m;
  }

  // ---- Once a day ----

  /** is_due */
  predicate IsDue(day: int, minutes: int, sendTime: string, lastSent: Option<int>)
    requires 0 <= minutes < 1440
  {
    lastSent != Some(day) && TimeReached(minutes, sendTime)
  }

  /**
   With an ASCII send time, a broadcast is due at every clock reading from that time on, unless the
   date stored is that of today: so it is due again the day after the last one.
   */
  lemma DueFromSendTimeOn(day: int, minutes: int, sendTime: string, lastSent: Option<int>)
    requires 0 <= minutes < 1440 && ValidTime(sendTime) && Ascii(sendTime)
    ensures IsDue(day, minutes, sendTime, lastSent) <==> minutes >= Minutes(sendTime) && lastSent != Some(day)
    ensures lastSent.Some? && lastSent.value < day && minutes >= Minutes(sendTime) ==>
              IsDue(day, minutes, sendTime, lastSent)
  {
    AsciiOrder(sendTime, minutes);
  }

  datatype Phase = Idle | Sending(day: int, left: nat)

  /**
   The stored last_sent_date and the loop's position, with its history: the last day seen, the
   broadcasts begun, those aborted before the date was stored, and the days completed.
   */
  datatype State = State(
    lastSent: Option<int>, phase: Phase, today: int,
    begun: multiset<int>, aborted: multiset<int>, completed: set<int>)

  datatype Step =
    | Begin(day: int, minutes: int, sendTime: string, users: nat)
    | Send
    | Store
    | Abort

  predicate Enabled(s: State, step: Step) {
    match step
    case Begin(day, minutes, sendTime, users) =>
      && s.phase.Idle? && users > 0 && day >= s.today
      && 0 <= minutes < 1440 && IsDue(day, minutes, sendTime, s.lastSent)
    case Send => s.phase.Sending? && s.phase.left > 0
    case Store => s.phase.Sending? && s.phase.left == 0
    case Abort => s.phase.Sending?
  }

  function Apply(s: State, step: Step): State
    requires Enabled(s, step)
  {
    match step
    case Begin(day, _, _, users) => s.(phase := Sending(day, users), today := day, begun := s.begun + multiset{day})
    case Send => s.(phase := Sending(s.phase.day, s.phase.left - 1))
    case Store => s.(phase := Idle, lastSent := Some(s.phase.day), completed := s.completed + {s.phase.day})
    case Abort => s.(phase := Idle, aborted := s.aborted + multiset{s.phase.day})
  }

  /** Each broadcast begun was aborted, is completed, or is the one under way; completed days lie behind. */
  predicate Inv(s: State) {
    && s.begun == s.aborted + multiset(s.completed) + (if s.phase.Sending? then multiset{s.phase.day} else multiset{})
    && (forall d :: d in s.completed ==> s.lastSent.Some? && d <= s.lastSent.value <= s.today)
    && (s.phase.Sending? ==> s.phase.day == s.today && s.phase.day !in s.completed)
  }

  lemma StepInv(s: State, step: Step)
    requires Inv(s) && Enabled(s, step)
    ensures Inv(Apply(s, step))
  {
    if step.Store? {
      assert multiset(s.completed + {s.phase.day}) == multiset(s.completed) + multiset{s.phase.day};
    }
  }

  predicate Runs(s: State, steps: seq<Step>)
    decreases |steps|
  {
    steps != [] ==> Enabled(s, steps[0]) && Runs(Apply(s, steps[0]), steps[1..])
  }

  function Exec(s: State, steps: seq<Step>): State
    requires Runs(s, steps)
    decreases |steps|
  {
    if steps == [] then s else Exec(Apply(s, steps[0]), steps[1..])
  }

  lemma {:induction false} RunInv(s: State, steps: seq<Step>)
    requires Inv(s) && Runs(s, steps)
    ensures Inv(Exec(s, steps))
    decreases |steps|
  {
    if steps != [] {
      StepInv(s, steps[0]);
      RunInv(Apply(s, steps[0]), steps[1..]);
    }
  }

  function Start(lastSent: Option<int>, today: int): State {
    State(lastSent, Idle, today, multiset{}, multiset{}, {})
  }

  /**
   Over any run with non-decreasing dates, the broadcasts of a day number at most one more than
   the iterations of that day aborted before the date was stored.
   */
  lemma {:induction false} OncePerDay(lastSent: Option<int>, today: int, steps: seq<Step>, day: int)
    requires Runs(Start(lastSent, today), steps)
    ensures var s := Exec(Start(lastSent, today), steps);
            s.begun[day] <= 1 + s.aborted[day]
  {
    RunInv(Start(lastSent, today), steps);
  }

  /** A day whose date was stored had exactly one broadcast more than were aborted. */
  lemma {:induction false} CompletedBroadcasts(lastSent: Option<int>, today: int, steps: seq<Step>, day: int)
    requires Runs(Start(lastSent, today), steps) && day in Exec(Start(lastSent, today), steps).completed
    ensures var s := Exec(Start(lastSent, today), steps);
            && s.begun[day] == 1 + s.aborted[day]
            && (s.begun[day] == 1 <==> s.aborted[day] == 0)
  {
    RunInv(Start(lastSent, today), steps);
    hide Runs, Exec, Start;
  }

  lemma {:induction false} Snoc(s: State, steps: seq<Step>, step: Step)
    requires Runs(s, steps) && Enabled(Exec(s, steps), step)
    ensures Runs(s, steps + [step]) && Exec(s, steps + [step]) == Apply(Exec(s, steps), step)
    decreases |steps|
  {
    hide Enabled, Apply;
    if steps == [] {
      assert [] + [step] == [step];
      assert [step][1..] == [];
    } else {
      Snoc(Apply(s, steps[0]), steps[1..], step);
      assert (steps + [step])[1..] == steps[1..] + [step];
    }
  }

  /** Whenever a broadcast is due, aborting it before the date is stored makes it begin again the same day. */
  lemma BroadcastTwice(lastSent: Option<int>, day: int, minutes: int, sendTime: string, users: nat)
    returns (steps: seq<Step>)
    requires users > 0 && 0 <= minutes < 1440 && IsDue(day, minutes, sendTime, lastSent)
    ensures Runs(Start(lastSent, day), steps) && Exec(Start(lastSent, day), steps).begun[day] == 2
  {
    var start, begin := Start(lastSent, day), Begin(day, minutes, sendTime, users);
    assert Runs(start, []) && Exec(start, []) == start;
    hide Runs, Exec, IsDue;
    Snoc(start, [], begin);
    Snoc(start, [] + [begin], Abort);
    Snoc(start, [] + [begin] + [Abort], begin);
    steps := [] + [begin] + [Abort] + [begin];
  }

  /** No broadcast begins before an ASCII send time. */
  lemma NotBeforeSendTime(s: State, step: Step)
    requires Enabled(s, step) && step.Begin? && ValidTime(step.sendTime) && Ascii(step.sendTime)
    ensures step.minutes >= Minutes(step.sendTime)
  {
    AsciiOrder(step.sendTime, step.minutes);
  }

  // ---- The loop ----

  /** The text of the day to the first n users. */
  function Broadcast(users: seq<int>, day: int, n: nat): seq<(int, int)>
    requires n <= |users|
  {
    if n == 0 then [] else Broadcast(users, day, n - 1) + [(users[n - 1], day)]
  }

  /** Each of them gets it once, in their order. */
  lemma {:induction false} BroadcastAt(users: seq<int>, day: int, n: nat)
    requires n <= |users|
    ensures |Broadcast(users, day, n)| == n
    ensures forall k :: 0 <= k < n ==> Broadcast(users, day, n)[k] == (users[k], day)
  {
    if n > 0 {
      BroadcastAt(users, day, n - 1);
    }
  }

  lemma {:induction false} NoBroadcast(users: seq<int>, day: int)
    ensures Broadcast(users, day, 0) == []
  {
  }

  lemma BroadcastSnoc(users: seq<int>, day: int, n: nat)
    requires n < |users|
    ensures Broadcast(users, day, n + 1) == Broadcast(users, day, n) + [(users[n], day)]
  {
  }

  class DailyLoop {
    var lastSent: Option<int>
    var outbox: seq<(int, int)>
    ghost var state: State

    ghost predicate InStep()
      reads this
    {
      Inv(state) && state.lastSent == lastSent
    }

    constructor (lastSent: Option<int>, ghost today: int)
      ensures InStep() && state == Start(lastSent, today) && outbox == []
    {
      this.lastSent, outbox, state := lastSent, [], Start(lastSent, today);
    }

    ghost method Record(step: Step)
      requires InStep() && Enabled(state, step) && !step.Store?
      modifies this`state
      ensures InStep() && state == Apply(old(state), step)
    {
      StepInv(state, step);
      state := Apply(state, step);
    }

    /**
     One iteration; send number k raises when `raises(k)`, and storing the date when
     `raises(|users|)`. The first `reached` users are sent to, in order.
     */
    method Iterate(enabled: bool, day: int, minutes: int, sendTime: string, users: seq<int>, hasClient: bool,
                   raises: nat -> bool)
      returns (sent: bool, reached: nat)
      requires InStep() && state.phase.Idle? && day >= state.today && 0 <= minutes < 1440
      modifies this
      ensures InStep() && state.phase.Idle?
      ensures reached <= |users| && outbox == old(outbox) + Broadcast(users, day, reached)
      ensures var runs := enabled && IsDue(day, minutes, sendTime, old(lastSent)) && users != [] && hasClient;
              && (!runs ==> !sent && reached == 0 && state == old(state))
              && (runs ==> reached > 0 && state.begun == old(state).begun + multiset{day})
              && (sent ==> runs && lastSent == Some(day) && state.aborted == old(state).aborted)
              && (runs && !sent ==> lastSent == old(lastSent) && state.aborted == old(state).aborted + multiset{day})
              && (sent ==> reached == |users|)
              && (runs ==> (sent <==> forall k: nat :: k <= |users| ==> !raises(k)))
    {
      hide Inv, IsDue, Broadcast;
      ghost var before := outbox;
      NoBroadcast(users, day);
      if !enabled || !IsDue(day, minutes, sendTime, lastSent) || users == [] || !hasClient {
        return false, 0;
      }
      Record(Begin(day, minutes, sendTime, |users|));
      for u := 0 to |users|
        invariant InStep() && lastSent == old(lastSent)
        invariant state.phase == Sending(day, |users| - u)
        invariant state.begun == old(state).begun + multiset{day} && state.aborted == old(state).aborted
        invariant outbox == before + Broadcast(users, day, u)
        invariant forall k: nat :: k < u ==> !raises(k)
      {
        outbox := outbox + [(users[u], day)];
        BroadcastSnoc(users, day, u);
        assert outbox == before + (Broadcast(users, day, u) + [(users[u], day)]);
        if raises(u) {
          Record(Abort);
          return false, u + 1;
        }
        Record(Send);
      }
      if raises(|users|) {
        Record(Abort);
        return false, |users|;
      }
      lastSent := Some(day);
      StepInv(state, Store);
      state := Apply(state, Store);
      sent, reached := true, |users|;
    }
  }
}
