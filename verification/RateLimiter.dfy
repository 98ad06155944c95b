/** The login rate limiter (app/security.py) and the login handler that drives it (app/admin/routes.py). */
module RateLimiter {

  const LOGIN_MAX_ATTEMPTS := 5
  const LOGIN_WINDOW_SECONDS: real := 900.0

  /** Failure times per IP; a missing entry is an empty list. */
  type Failures = map<string, seq<real>>

  function Get(m: Failures, ip: string): seq<real> {
    if ip in m then m[ip] else []
  }

  /** [t for t in ts if t >= cutoff] */
  function Recent(ts: seq<real>, cutoff: real): seq<real> {
    if ts == [] then []
    else
      var rest, last := Recent(ts[..|ts| - 1], cutoff), ts[|ts| - 1];
      if last >= cutoff then rest + [last] else rest
  }

  /** The lock-out rule on the full list of failures since the last success. */
  predicate Locked(failures: seq<real>, now: real) {
    |Recent(failures, now - LOGIN_WINDOW_SECONDS)| >= LOGIN_MAX_ATTEMPTS
  }

  /** Pruning at one cutoff is invisible to every later cutoff. */
  lemma {:induction false} PruneLossless(ts: seq<real>, earlier: real, later: real)
    requires earlier <= later
    ensures Recent(Recent(ts, earlier), later) == Recent(ts, later)
  {
    if ts != [] {
      var init, last := ts[..|ts| - 1], ts[|ts| - 1];
      PruneLossless(init, earlier, later);
      if last >= earlier {
        assert (Recent(init, earlier) + [last])[..|Recent(init, earlier)|] == Recent(init, earlier);
      }
    }
  }

  lemma {:induction false} RecentSnoc(ts: seq<real>, t: real, cutoff: real)
    ensures Recent(ts + [t], cutoff) == if t >= cutoff then Recent(ts, cutoff) + [t] else Recent(ts, cutoff)
  {
    assert (ts + [t])[..|ts|] == ts;
  }

  /** The pruned lists and the full ones give the same answer at every cutoff from `since` on. */
  ghost predicate Agree(pruned: Failures, full: Failures, since: real) {
    forall ip, cutoff :: cutoff >= since ==> Recent(Get(pruned, ip), cutoff) == Recent(Get(full, ip), cutoff)
  }

  lemma AppendKeepsAgreement(pruned: Failures, full: Failures, since: real, ip: string, t: real)
    requires Agree(pruned, full, since)
    ensures Agree(pruned[ip := Get(pruned, ip) + [t]], full[ip := Get(full, ip) + [t]], since)
  {
    hide Recent;
    var a, b := pruned[ip := Get(pruned, ip) + [t]], full[ip := Get(full, ip) + [t]];
    forall other, c | c >= since
      ensures Recent(Get(a, other), c) == Recent(Get(b, other), c)
    {
      assert Recent(Get(pruned, other), c) == Recent(Get(full, other), c);
      if other == ip {
        RecentSnoc(Get(pruned, ip), t, c);
        RecentSnoc(Get(full, ip), t, c);
      }
    }
  }

  class LoginRateLimiter {
    var attempts: Failures
    /** History: every failure since the last success of its IP, and the last time read. */
    ghost var failures: Failures
    ghost var clock: real

    /** Pruning has lost nothing that a cutoff still to come would count. */
    ghost predicate Valid()
      reads this
    {
      Agree(attempts, failures, clock - LOGIN_WINDOW_SECONDS)
    }

    constructor (now: real)
      ensures Valid() && failures == map[] && clock == now
    {
      attempts, failures, clock := map[], map[], now;
    }

    method Prune(ip: string, now: real)
      requires Valid() && now >= clock
      modifies this
      ensures Valid() && clock == now && failures == old(failures)
      ensures Get(attempts, ip) == Recent(Get(failures, ip), now - LOGIN_WINDOW_SECONDS)
    {
      var cutoff := now - LOGIN_WINDOW_SECONDS;
      var kept := Recent(Get(attempts, ip), cutoff);
      if kept != [] {
        attempts := attempts[ip := kept];
      } else {
        attempts := attempts - {ip};
      }
      clock := now;
      forall other, c | c >= cutoff
        ensures Recent(Get(attempts, other), c) == Recent(Get(failures, other), c)
      {
        if other == ip {
          PruneLossless(Get(old(attempts), ip), cutoff, c);
        }
      }
    }

    method IsLockedOut(ip: string, now: real) returns (locked: bool)
      requires Valid() && now >= clock
      modifies this
      ensures Valid() && clock == now && failures == old(failures)
      ensures locked == Locked(Get(failures, ip), now)
    {
      Prune(ip, now);
      locked := |Get(attempts, ip)| >= LOGIN_MAX_ATTEMPTS;
    }

    method RecordFailure(ip: string, now: real)
      requires Valid() && now >= clock
      modifies this
      ensures Valid() && clock == now
      ensures failures == old(failures)[ip := Get(old(failures), ip) + [now]]
    {
      hide Agree, Recent;
      Prune(ip, now);
      AppendKeepsAgreement(attempts, failures, now - LOGIN_WINDOW_SECONDS, ip, now);
      attempts := attempts[ip := Get(attempts, ip) + [now]];
      failures := failures[ip := Get(failures, ip) + [now]];
    }

    method RecordSuccess(ip: string)
      requires Valid()
      modifies this
      ensures Valid() && clock == old(clock) && failures == old(failures) - {ip}
    {
      attempts := attempts - {ip};
      failures := failures - {ip};
      forall other, c | c >= clock - LOGIN_WINDOW_SECONDS
        ensures Recent(Get(attempts, other), c) == Recent(Get(failures, other), c)
      {
        assert Recent(Get(old(attempts), other), c) == Recent(Get(old(failures), other), c);
      }
    }

    /** One request to the login handler with no other attempt in between. */
    method Login(a: Attempt) returns (reply: Reply)
      requires Valid() && clock <= a.checkedAt <= a.recordedAt
      modifies this
      ensures Valid() && clock <= a.recordedAt
      ensures failures == AfterLogin(old(failures), a)
      ensures reply == if Locked(Get(old(failures), a.ip), a.checkedAt) then TooMany
                       else if a.verdict.Wrong? then Rejected
                       else if a.verdict.Right? then Accepted
                       else Error
    {
      var locked := IsLockedOut(a.ip, a.checkedAt);
      if locked {
        return TooMany;
      }
      match a.verdict
      case Wrong =>
        RecordFailure(a.ip, a.recordedAt);
        reply := Rejected;
      case Right =>
        RecordSuccess(a.ip);
        reply := Accepted;
      case Crashed =>
        reply := Error;
    }
  }

  /** A login request: when it was checked, when its outcome was recorded, and what the password check said. */
  datatype Verdict = Wrong | Right | Crashed
  datatype Attempt = Attempt(ip: string, verdict: Verdict, checkedAt: real, recordedAt: real)
  datatype Reply = TooMany | Rejected | Accepted | Error

  function AfterLogin(failures: Failures, a: Attempt): Failures {
    if Locked(Get(failures, a.ip), a.checkedAt) then failures
    else match a.verdict
      case Wrong => failures[a.ip := Get(failures, a.ip) + [a.recordedAt]]
      case Right => failures - {a.ip}
      case Crashed => failures
  }

  function Replay(log: seq<Attempt>): Failures {
    if log == [] then map[] else AfterLogin(Replay(log[..|log| - 1]), log[|log| - 1])
  }

  /** Attempts follow one another: each is checked after the previous one was recorded. */
  predicate Sequential(log: seq<Attempt>) {
    && (forall i :: 0 <= i < |log| ==> log[i].checkedAt <= log[i].recordedAt)
    && (forall i, j :: 0 <= i < j < |log| ==> log[i].recordedAt <= log[j].checkedAt)
  }

  predicate Ascending(ts: seq<real>) {
    forall i, j :: 0 <= i < j < |ts| ==> ts[i] <= ts[j]
  }

  /** Any six consecutive failures span strictly more than the window. */
  predicate SpreadOut(ts: seq<real>) {
    forall i :: 0 <= i < |ts| - LOGIN_MAX_ATTEMPTS ==> ts[i + LOGIN_MAX_ATTEMPTS] - ts[i] > LOGIN_WINDOW_SECONDS
  }

  lemma {:induction false} LastAreRecent(ts: seq<real>, k: nat, cutoff: real)
    requires Ascending(ts) && k <= |ts|
    requires k > 0 ==> ts[|ts| - k] >= cutoff
    ensures |Recent(ts, cutoff)| >= k
  {
    if k > 0 {
      var init := ts[..|ts| - 1];
      if k > 1 {
        assert init[|init| - (k - 1)] == ts[|ts| - k];
      }
      LastAreRecent(init, k - 1, cutoff);
    }
  }

  /** A failure recorded while not locked out lies more than a window after the fifth last. */
  lemma RecordKeepsSpread(ts: seq<real>, checkedAt: real, recordedAt: real)
    requires Ascending(ts) && SpreadOut(ts) && !Locked(ts, checkedAt)
    requires checkedAt <= recordedAt && forall i :: 0 <= i < |ts| ==> ts[i] <= checkedAt
    ensures Ascending(ts + [recordedAt]) && SpreadOut(ts + [recordedAt])
  {
    var k := |ts| - LOGIN_MAX_ATTEMPTS;
    if k >= 0 && ts[k] >= checkedAt - LOGIN_WINDOW_SECONDS {
      LastAreRecent(ts, LOGIN_MAX_ATTEMPTS, checkedAt - LOGIN_WINDOW_SECONDS);
    }
  }

  /** One login keeps the failures of every IP in order, spread out and in the past. */
  lemma LoginKeepsSpread(failures: Failures, a: Attempt, ip: string)
    requires a.checkedAt <= a.recordedAt
    requires Ascending(Get(failures, ip)) && SpreadOut(Get(failures, ip))
    requires forall t :: t in Get(failures, ip) ==> t <= a.checkedAt
    ensures var ts := Get(AfterLogin(failures, a), ip);
            && Ascending(ts) && SpreadOut(ts)
            && forall t :: t in ts ==> t <= a.recordedAt
  {
    var ts, after := Get(failures, ip), Get(AfterLogin(failures, a), ip);
    if a.ip == ip && !Locked(ts, a.checkedAt) && a.verdict.Wrong? {
      assert after == ts + [a.recordedAt];
      assert forall i :: 0 <= i < |ts| ==> ts[i] in ts;
      RecordKeepsSpread(ts, a.checkedAt, a.recordedAt);
    }
  }

  /** In every run of sequential logins, the recorded failures of every IP are spread out. */
  lemma {:induction false} FailuresSpreadOut(log: seq<Attempt>, ip: string)
    requires Sequential(log)
    ensures var ts := Get(Replay(log), ip);
            && Ascending(ts) && SpreadOut(ts)
            && forall t :: t in ts ==> log != [] && t <= log[|log| - 1].recordedAt
  {
    if log != [] {
      var n := |log| - 1;
      var init, a := log[..n], log[n];
      FailuresSpreadOut(init, ip);
      if n > 0 {
        assert init[n - 1] == log[n - 1];
        assert log[n - 1].recordedAt <= a.checkedAt;
      }
      LoginKeepsSpread(Replay(init), a, ip);
    }
  }

  lemma {:induction false} RecentAtMost(ts: seq<real>, cutoff: real, k: nat)
    requires Ascending(ts) && k <= |ts| && (k < |ts| ==> ts[|ts| - 1 - k] < cutoff)
    ensures |Recent(ts, cutoff)| <= k
  {
    if ts != [] {
      var init := ts[..|ts| - 1];
      if k == 0 {
        RecentAtMost(init, cutoff, 0);
      } else {
        RecentAtMost(init, cutoff, k - 1);
      }
    }
  }

  /** On failures in order, an address is locked out exactly as long as the fifth last is at most 900 seconds old. */
  lemma LockedIffFifthLast(ts: seq<real>, now: real)
    requires Ascending(ts)
    ensures Locked(ts, now) <==> |ts| >= 5 && ts[|ts| - 5] >= now - 900.0
  {
    if |ts| >= 5 && ts[|ts| - 5] >= now - 900.0 {
      LastAreRecent(ts, 5, now - 900.0);
    } else {
      RecentAtMost(ts, now - 900.0, if |ts| >= 5 then 4 else |ts|);
    }
  }

  /** A wrong password that is let in is recorded, a right one clears the record; other logins do neither. */
  lemma {:induction false} LoginRecords(log: seq<Attempt>, a: Attempt)
    ensures var before, after := Get(Replay(log), a.ip), Get(Replay(log + [a]), a.ip);
            after == if Locked(before, a.checkedAt) || a.verdict.Crashed? then before
                     else if a.verdict.Wrong? then before + [a.recordedAt]
                     else []
  {
    ReplaySnoc(log, a);
    hide Recent;
  }

  /** The attempts from position n on are wrong, from this address, and each is let in. */
  predicate WrongFrom(log: seq<Attempt>, ip: string, n: nat) {
    forall i :: n <= i < |log| ==>
      log[i].ip == ip && log[i].verdict == Wrong && !Locked(Get(Replay(log[..i]), ip), log[i].checkedAt)
  }

  /** The last failures on record are theirs. */
  lemma {:induction false} WrongsAreRecorded(log: seq<Attempt>, ip: string, n: nat)
    requires n <= |log| && WrongFrom(log, ip, n)
    ensures var ts, k := Get(Replay(log), ip), |log| - n;
            |ts| >= k && (k > 0 ==> ts[|ts| - k] == log[n].recordedAt)
  {
    hide Locked, Replay, Get;
    if n < |log| {
      var init, a := log[..|log| - 1], log[|log| - 1];
      assert log == init + [a] && log[..|log| - 1] == init;
      WrongFromInit(init, a, ip, n);
      WrongsAreRecorded(init, ip, n);
      LoginRecords(init, a);
      hide WrongFrom;
    }
  }

  lemma {:induction false} WrongFromInit(init: seq<Attempt>, a: Attempt, ip: string, n: nat)
    requires WrongFrom(init + [a], ip, n) && n <= |init|
    ensures WrongFrom(init, ip, n)
    ensures a.ip == ip && a.verdict == Wrong && !Locked(Get(Replay(init), ip), a.checkedAt)
  {
    hide Locked, Replay, Get;
    var log := init + [a];
    assert log[..|init|] == init && log[|init|] == a;
    forall i | n <= i < |init|
      ensures init[i].ip == ip && init[i].verdict == Wrong
      ensures !Locked(Get(Replay(init[..i]), ip), init[i].checkedAt)
    {
      assert log[i] == init[i] && log[..i] == init[..i];
    }
  }

  /**
   Five strikes: after five wrong passwords in a row that were let in, whatever came before them,
   every further attempt is refused for 900 seconds from the first of the five, and none later.
   */
  lemma {:induction false} FiveStrikes(log: seq<Attempt>, ip: string, now: real)
    requires Sequential(log) && |log| >= 5 && WrongFrom(log, ip, |log| - 5)
    ensures Locked(Get(Replay(log), ip), now) <==> now <= log[|log| - 5].recordedAt + 900.0
  {
    hide WrongFrom, SpreadOut, Replay, Get, Locked;
    FailuresSpreadOut(log, ip);
    WrongsAreRecorded(log, ip, |log| - 5);
    LockedIffFifthLast(Get(Replay(log), ip), now);
  }

  function OfIp(log: seq<Attempt>, ip: string): seq<Attempt> {
    if log == [] then []
    else
      var rest, a := OfIp(log[..|log| - 1], ip), log[|log| - 1];
      if a.ip == ip then rest + [a] else rest
  }

  lemma LoginTouchesOwnIp(f: Failures, g: Failures, a: Attempt, ip: string)
    requires Get(f, ip) == Get(g, ip)
    ensures a.ip != ip ==> Get(AfterLogin(f, a), ip) == Get(f, ip)
    ensures a.ip == ip ==> Get(AfterLogin(f, a), ip) == Get(AfterLogin(g, a), ip)
  {
    hide Recent;
  }

  lemma {:induction false} ReplaySnoc(log: seq<Attempt>, a: Attempt)
    ensures Replay(log + [a]) == AfterLogin(Replay(log), a)
  {
    assert (log + [a])[..|log|] == log;
  }

  /** What one IP has against it depends on its own attempts only. */
  lemma {:induction false} OtherIpsIrrelevant(log: seq<Attempt>, ip: string)
    ensures Get(Replay(log), ip) == Get(Replay(OfIp(log, ip)), ip)
  {
    if log != [] {
      var init, a := log[..|log| - 1], log[|log| - 1];
      OtherIpsIrrelevant(init, ip);
      ReplaySnoc(OfIp(init, ip), a);
      hide AfterLogin, Get;
      LoginTouchesOwnIp(Replay(init), Replay(OfIp(init, ip)), a, ip);
    }
  }

  // ---- Overlapping attempts ----

  /**
   A login in two events: the lock-out check, and the recording of its outcome after the password
   check. In between it is open; `attempt` is its position among the open attempts of its IP.
   */
  datatype Event =
    | Check(ip: string, at: real)
    | Fail(ip: string, attempt: nat, at: real)
    | Succeed(ip: string, attempt: nat, at: real)
    | Vanish(ip: string, attempt: nat, at: real)

  /**
   One IP: its failures since the last success, and the open attempts. For each failure and each
   open attempt, how many of these failures its own check had seen.
   */
  datatype Track = Track(failures: seq<real>, seen: seq<nat>, open: seq<nat>)

  const FRESH := Track([], [], [])

  function Without(s: seq<nat>, j: nat): seq<nat>
    requires j < |s|
  {
    s[..j] + s[j + 1..]
  }

  /** An event that is not possible changes nothing. */
  function Advance(t: Track, e: Event): Track {
    match e
    case Check(_, at) => if Locked(t.failures, at) then t else t.(open := t.open + [|t.failures|])
    case Fail(_, j, at) =>
      if j >= |t.open| then t else Track(t.failures + [at], t.seen + [t.open[j]], Without(t.open, j))
    case Succeed(_, j, _) => if j >= |t.open| then t else Track([], [], seq(|t.open| - 1, _ => 0))
    case Vanish(_, j, _) => if j >= |t.open| then t else t.(open := Without(t.open, j))
  }

  /** The track of one IP after a run of events; the events of other IPs do not touch it. */
  function TrackOf(log: seq<Event>, ip: string): Track {
    if log == [] then FRESH
    else
      var before, e := TrackOf(log[..|log| - 1], ip), log[|log| - 1];
      if e.ip == ip then Advance(before, e) else before
  }

  predicate InOrder(log: seq<Event>) {
    forall i, j :: 0 <= i < j < |log| ==> log[i].at <= log[j].at
  }

  /** Never more than k attempts of the IP between check and record. */
  predicate AtMostOpen(log: seq<Event>, ip: string, k: nat) {
    && |TrackOf(log, ip).open| <= k
    && (log != [] ==> AtMostOpen(log[..|log| - 1], ip, k))
  }

  /** Any 5 + k consecutive failures span strictly more than the window. */
  predicate SpreadOver(ts: seq<real>, k: nat)
    requires k >= 1
  {
    forall i :: 0 <= i <= |ts| - LOGIN_MAX_ATTEMPTS - k ==>
      ts[i + LOGIN_MAX_ATTEMPTS + k - 1] - ts[i] > LOGIN_WINDOW_SECONDS
  }

  /** How many of these checks had seen fewer than m failures. */
  function Behind(seen: seq<nat>, m: nat): (n: nat)
    ensures n <= |seen|
  {
    if seen == [] then 0 else Behind(seen[..|seen| - 1], m) + (if seen[|seen| - 1] < m then 1 else 0)
  }

  lemma {:induction false} BehindJoined(a: seq<nat>, b: seq<nat>, m: nat)
    ensures Behind(a + b, m) == Behind(a, m) + Behind(b, m)
  {
    if b == [] {
      assert a + b == a;
    } else {
      BehindJoined(a, b[..|b| - 1], m);
      assert (a + b)[..|a + b| - 1] == a + b[..|b| - 1];
    }
  }

  lemma {:induction false} BehindOne(x: nat, m: nat)
    ensures Behind([x], m) == if x < m then 1 else 0
  {
    assert [x][..0] == [];
  }

  lemma {:induction false} BehindWithout(s: seq<nat>, j: nat, m: nat)
    requires j < |s|
    ensures Behind(Without(s, j), m) + (if s[j] < m then 1 else 0) == Behind(s, m)
  {
    BehindJoined(s[..j], s[j + 1..], m);
    BehindJoined(s[..j], [s[j]], m);
    BehindJoined(s[..j] + [s[j]], s[j + 1..], m);
    BehindOne(s[j], m);
    assert s == s[..j] + [s[j]] + s[j + 1..];
  }

  lemma {:induction false} AllBehind(s: seq<nat>, m: nat)
    requires forall i :: 0 <= i < |s| ==> s[i] < m
    ensures Behind(s, m) == |s|
  {
    if s != [] {
      AllBehind(s[..|s| - 1], m);
    }
  }

  /** A check that had seen five failures or more was past the window of the fifth last. */
  predicate Unlocked(ts: seq<real>, seen: nat, at: real) {
    seen <= |ts| && (seen >= LOGIN_MAX_ATTEMPTS ==> ts[seen - LOGIN_MAX_ATTEMPTS] < at - LOGIN_WINDOW_SECONDS)
  }

  /** Past the first m failures, fewer than k attempts have been or may still be recorded that had not seen them all. */
  predicate FewBehind(t: Track, k: nat, m: nat)
    requires m <= |t.seen|
  {
    Behind(t.seen[m..], m) + Behind(t.open, m) < k
  }

  predicate TrackOk(t: Track, now: real, k: nat) {
    && |t.seen| == |t.failures| && Ascending(t.failures)
    && (forall i :: 0 <= i < |t.failures| ==> t.failures[i] <= now && Unlocked(t.failures, t.seen[i], t.failures[i]))
    && (forall j :: 0 <= j < |t.open| ==> Unlocked(t.failures, t.open[j], now))
    && (forall m :: LOGIN_MAX_ATTEMPTS <= m <= |t.seen| ==> FewBehind(t, k, m))
  }

  lemma LaterStillOk(t: Track, now: real, later: real, k: nat)
    requires TrackOk(t, now, k) && now <= later
    ensures TrackOk(t, later, k)
  {
    hide Behind, FewBehind;
  }

  lemma CheckKeepsOk(t: Track, e: Event, k: nat)
    requires TrackOk(t, e.at, k) && e.Check?
    ensures TrackOk(Advance(t, e), e.at, k)
  {
    var u := Advance(t, e);
    if u != t {
      var n := |t.failures|;
      if n >= LOGIN_MAX_ATTEMPTS && t.failures[n - LOGIN_MAX_ATTEMPTS] >= e.at - LOGIN_WINDOW_SECONDS {
        LastAreRecent(t.failures, LOGIN_MAX_ATTEMPTS, e.at - LOGIN_WINDOW_SECONDS);
      }
      hide Locked, Recent, Behind;
      forall m | LOGIN_MAX_ATTEMPTS <= m <= |u.seen|
        ensures FewBehind(u, k, m)
      {
        assert FewBehind(t, k, m);
        BehindJoined(t.open, [n], m);
        BehindOne(n, m);
      }
    }
  }

  lemma {:induction false} NothingBehindEmpty(m: nat)
    ensures Behind([], m) == 0
  {
  }

  lemma FailKeepsFew(t: Track, j: nat, at: real, k: nat, m: nat)
    requires TrackOk(t, at, k) && j < |t.open| <= k && LOGIN_MAX_ATTEMPTS <= m <= |t.seen| + 1
    ensures FewBehind(Track(t.failures + [at], t.seen + [t.open[j]], Without(t.open, j)), k, m)
  {
    hide Behind, Unlocked, Ascending;
    var seen, x := t.seen, t.open[j];
    BehindWithout(t.open, j, m);
    BehindOne(x, m);
    if m <= |seen| {
      assert FewBehind(t, k, m);
      assert (seen + [x])[m..] == seen[m..] + [x];
      BehindJoined(seen[m..], [x], m);
    } else {
      NothingBehindEmpty(m);
      assert (seen + [x])[m..] == [];
    }
  }

  lemma FailKeepsOk(t: Track, e: Event, k: nat)
    requires TrackOk(t, e.at, k) && e.Fail? && |t.open| <= k
    ensures TrackOk(Advance(t, e), e.at, k)
  {
    hide Behind, FewBehind;
    if e.attempt < |t.open| {
      var u := Advance(t, e);
      forall m | LOGIN_MAX_ATTEMPTS <= m <= |u.seen|
        ensures FewBehind(u, k, m)
      {
        FailKeepsFew(t, e.attempt, e.at, k, m);
      }
      assert Unlocked(t.failures, t.open[e.attempt], e.at);
      assert forall i :: 0 <= i < |u.open| ==> u.open[i] == t.open[if i < e.attempt then i else i + 1];
    }
  }

  lemma VanishKeepsOk(t: Track, e: Event, k: nat)
    requires TrackOk(t, e.at, k) && e.Vanish?
    ensures TrackOk(Advance(t, e), e.at, k)
  {
    hide Behind;
    if e.attempt < |t.open| {
      var u := Advance(t, e);
      assert forall i :: 0 <= i < |u.open| ==> u.open[i] == t.open[if i < e.attempt then i else i + 1];
      forall m | LOGIN_MAX_ATTEMPTS <= m <= |u.seen|
        ensures FewBehind(u, k, m)
      {
        assert FewBehind(t, k, m);
        BehindWithout(t.open, e.attempt, m);
      }
    }
  }

  lemma SucceedKeepsOk(t: Track, e: Event, k: nat)
    requires TrackOk(t, e.at, k) && e.Succeed?
    ensures TrackOk(Advance(t, e), e.at, k)
  {
  }

  lemma {:induction false} RunKeepsTrack(log: seq<Event>, ip: string, k: nat, now: real)
    requires k >= 1 && InOrder(log) && AtMostOpen(log, ip, k)
    requires forall i :: 0 <= i < |log| ==> log[i].at <= now
    ensures TrackOk(TrackOf(log, ip), now, k)
  {
    hide TrackOk, Advance;
    if log == [] {
      FreshIsOk(now, k);
    } else {
      var n := |log| - 1;
      var init, e := log[..n], log[n];
      RunKeepsTrack(init, ip, k, e.at);
      var t := TrackOf(init, ip);
      match e {
        case Check(_, _) => CheckKeepsOk(t, e, k);
        case Fail(_, _, _) => FailKeepsOk(t, e, k);
        case Succeed(_, _, _) => SucceedKeepsOk(t, e, k);
        case Vanish(_, _, _) => VanishKeepsOk(t, e, k);
      }
      LaterStillOk(TrackOf(log, ip), e.at, now, k);
    }
  }

  lemma FreshIsOk(now: real, k: nat)
    ensures TrackOk(FRESH, now, k)
  {
  }

  /** Of k failures in a row, one had seen everything before them. */
  lemma SomeoneSawAll(t: Track, k: nat, m: nat) returns (j: nat)
    requires k >= 1 && LOGIN_MAX_ATTEMPTS <= m && m + k <= |t.seen| && FewBehind(t, k, m)
    ensures m <= j < m + k && t.seen[j] >= m
  {
    if forall i :: m <= i < m + k ==> t.seen[i] < m {
      assert t.seen[m..] == t.seen[m..m + k] + t.seen[m + k..];
      AllBehind(t.seen[m..m + k], m);
      BehindJoined(t.seen[m..m + k], t.seen[m + k..], m);
      assert false;
    }
    j :| m <= j < m + k && t.seen[j] >= m;
  }

  /**
   With at most k attempts of an IP between check and record, any 5 + k consecutive failures with
   no success between them span strictly more than the window.
   */
  lemma {:induction false} OverlapBound(log: seq<Event>, ip: string, k: nat)
    requires k >= 1 && InOrder(log) && AtMostOpen(log, ip, k)
    ensures SpreadOver(TrackOf(log, ip).failures, k)
  {
    var t := TrackOf(log, ip);
    var now := if log == [] then 0.0 else log[|log| - 1].at;
    RunKeepsTrack(log, ip, k, now);
    hide TrackOf, AtMostOpen, FewBehind, Behind;
    forall i | 0 <= i <= |t.failures| - LOGIN_MAX_ATTEMPTS - k
      ensures t.failures[i + LOGIN_MAX_ATTEMPTS + k - 1] - t.failures[i] > LOGIN_WINDOW_SECONDS
    {
      var m := i + LOGIN_MAX_ATTEMPTS;
      var j := SomeoneSawAll(t, k, m);
      assert Unlocked(t.failures, t.seen[j], t.failures[j]);
      var last := m + k - 1;
      assert t.failures[j] <= t.failures[last];
      assert t.failures[i] <= t.failures[t.seen[j] - LOGIN_MAX_ATTEMPTS];
    }
  }

  /** A login with no other attempt in between is a check followed by its record. */
  lemma LoginIsCheckThenRecord(t: Track, failures: Failures, a: Attempt)
    requires t.open == [] && t.failures == Get(failures, a.ip)
    ensures var record := match a.verdict
              case Wrong => Fail(a.ip, 0, a.recordedAt)
              case Right => Succeed(a.ip, 0, a.recordedAt)
              case Crashed => Vanish(a.ip, 0, a.recordedAt);
            var u := Advance(Advance(t, Check(a.ip, a.checkedAt)), record);
            u.open == [] && u.failures == Get(AfterLogin(failures, a), a.ip)
  {
  }

  // ---- The bound is reached ----

  lemma {:induction false} RecentIsShorter(ts: seq<real>, cutoff: real)
    ensures |Recent(ts, cutoff)| <= |ts|
  {
    if ts != [] {
      RecentIsShorter(ts[..|ts| - 1], cutoff);
    }
  }

  lemma {:induction false} OneMore(log: seq<Event>, e: Event, k: nat)
    requires AtMostOpen(log, e.ip, k) && |Advance(TrackOf(log, e.ip), e).open| <= k
    ensures AtMostOpen(log + [e], e.ip, k) && TrackOf(log + [e], e.ip) == Advance(TrackOf(log, e.ip), e)
  {
    assert (log + [e])[..|log|] == log;
  }

  /** All events of the run lie at one instant. */
  predicate AtInstant(log: seq<Event>, t: real) {
    forall i :: 0 <= i < |log| ==> log[i].at == t
  }

  lemma {:induction false} FailuresOneByOne(ip: string, t: real, n: nat) returns (log: seq<Event>)
    requires n < LOGIN_MAX_ATTEMPTS
    ensures AtInstant(log, t) && AtMostOpen(log, ip, 1)
    ensures TrackOf(log, ip).open == [] && TrackOf(log, ip).failures == seq(n, _ => t)
  {
    if n == 0 {
      log := [];
    } else {
      log := FailuresOneByOne(ip, t, n - 1);
      var before := TrackOf(log, ip);
      RecentIsShorter(before.failures, t - LOGIN_WINDOW_SECONDS);
      hide Recent, TrackOf, AtMostOpen;
      OneMore(log, Check(ip, t), 1);
      log := log + [Check(ip, t)];
      OneMore(log, Fail(ip, 0, t), 1);
      log := log + [Fail(ip, 0, t)];
    }
  }

  lemma {:induction false} MoreOpenAllowed(log: seq<Event>, ip: string, k: nat, l: nat)
    requires AtMostOpen(log, ip, k) && k <= l
    ensures AtMostOpen(log, ip, l)
  {
    if log != [] {
      MoreOpenAllowed(log[..|log| - 1], ip, k, l);
    }
  }

  lemma {:induction false} OpenMany(start: seq<Event>, ip: string, t: real, n: nat, k: nat) returns (log: seq<Event>)
    requires n <= k && AtInstant(start, t) && AtMostOpen(start, ip, k)
    requires TrackOf(start, ip).open == [] && |TrackOf(start, ip).failures| < LOGIN_MAX_ATTEMPTS
    ensures AtInstant(log, t) && AtMostOpen(log, ip, k)
    ensures |TrackOf(log, ip).open| == n && TrackOf(log, ip).failures == TrackOf(start, ip).failures
  {
    if n == 0 {
      log := start;
    } else {
      log := OpenMany(start, ip, t, n - 1, k);
      RecentIsShorter(TrackOf(log, ip).failures, t - LOGIN_WINDOW_SECONDS);
      hide Recent, TrackOf, AtMostOpen;
      OneMore(log, Check(ip, t), k);
      log := log + [Check(ip, t)];
    }
  }

  lemma {:induction false} FailAll(start: seq<Event>, ip: string, t: real, n: nat, k: nat) returns (log: seq<Event>)
    requires n == |TrackOf(start, ip).open| && AtInstant(start, t) && AtMostOpen(start, ip, k)
    ensures AtInstant(log, t) && AtMostOpen(log, ip, k)
    ensures TrackOf(log, ip).failures == TrackOf(start, ip).failures + seq(n, _ => t)
    decreases n
  {
    if n == 0 {
      log := start;
    } else {
      var e := Fail(ip, 0, t);
      OpenWithin(start, ip, k);
      hide TrackOf, AtMostOpen, Recent;
      OneMore(start, e, k);
      log := FailAll(start + [e], ip, t, n - 1, k);
      assert [t] + seq(n - 1, _ => t) == seq(n, _ => t);
    }
  }

  lemma {:induction false} OpenWithin(log: seq<Event>, ip: string, k: nat)
    requires AtMostOpen(log, ip, k)
    ensures |TrackOf(log, ip).open| <= k
  {
  }

  /**
   The bound cannot be lowered, for any k: four failures one by one and k attempts checked before
   any of them is recorded give 4 + k failures at one instant.
   */
  lemma OverlapBoundReached(ip: string, t: real, k: nat) returns (log: seq<Event>)
    requires k >= 1
    ensures InOrder(log) && AtMostOpen(log, ip, k)
    ensures TrackOf(log, ip).failures == seq(LOGIN_MAX_ATTEMPTS - 1 + k, _ => t)
  {
    hide TrackOf, AtMostOpen;
    log := FailuresOneByOne(ip, t, LOGIN_MAX_ATTEMPTS - 1);
    MoreOpenAllowed(log, ip, 1, k);
    log := OpenMany(log, ip, t, k, k);
    log := FailAll(log, ip, t, k, k);
    assert seq(LOGIN_MAX_ATTEMPTS - 1, _ => t) + seq(k, _ => t) == seq(LOGIN_MAX_ATTEMPTS - 1 + k, _ => t);
  }
}
