/**
 Overlapping settings operations. resolve awaits its query before it fills the cache, and a write
 commits before it invalidates, so each is two events and other events may fall in between. The
 registry's lock makes a reload wait for a get_bale_client that has begun, not for any other resolve.
 */
module SettingsOverlap {
  import opened Wrappers
  import opened Settings

  /** A value read from the table: by the event at position `asked`, at time `at`. */
  datatype Read = Read(key: string, value: Resolved, asked: nat, at: real)
  datatype Cached = Cached(expiry: real, read: Read)

  /** A commit may be another writer's; only this store's own writes are followed by an invalidation. */
  datatype Step =
    | Ask(key: string)
    | Fill(read: nat)
    | Commit(key: string, row: Option<Stored>)
    | Invalidate(key: string)
    | Connect                                          // get_bale_client, with the token in the cache
    | Reload                                           // the registry drops its client

  datatype Event = Event(at: real, step: Step)

  /** `client` is the read that the held client was built from; a client does not expire. */
  datatype State = State(table: Table, cache: map<string, Cached>, open: seq<Read>, client: Option<Read>)

  /** The token that was read makes a client. */
  predicate Usable(r: Read) {
    r.key == BOT_TOKEN && r.value.value.Some? && r.value.value.value != ""
  }

  predicate Hit(s: State, key: string, now: real) {
    key in s.cache && now < s.cache[key].expiry
  }

  /** The event at position n. */
  function Next(cfg: Config, s: State, e: Event, n: nat): State {
    match e.step
    case Ask(key) =>
      var r := Layered(cfg, s.table, key);
      if Hit(s, key, e.at) || r.Raised? then s else s.(open := s.open + [Read(key, r.value, n, e.at)])
    case Fill(j) =>
      if j >= |s.open| then s
      else
        var r := s.open[j];
        s.(cache := s.cache[r.key := Cached(e.at + CACHE_TTL_SECONDS, r)],
           open := s.open[..j] + s.open[j + 1..])
    case Commit(key, row) => s.(table := if row.Some? then s.table[key := row.value] else s.table - {key})
    case Invalidate(key) => s.(cache := s.cache - {key})
    case Connect =>
      if s.client.None? && Hit(s, BOT_TOKEN, e.at) && Usable(s.cache[BOT_TOKEN].read)
      then s.(client := Some(s.cache[BOT_TOKEN].read)) else s
    case Reload => s.(client := None)
  }

  function After(cfg: Config, table: Table, log: seq<Event>): State {
    if log == [] then State(table, map[], [], None)
    else
      var n := |log| - 1;
      Next(cfg, After(cfg, table, log[..n]), log[n], n)
  }

  /** What the event returns to a caller of resolve, if anything. */
  function Served(s: State, e: Event): Option<Read> {
    match e.step
    case Ask(key) => if Hit(s, key, e.at) then Some(s.cache[key].read) else None
    case Fill(j) => if j < |s.open| then Some(s.open[j]) else None
    case _ => None
  }

  predicate Chronological(log: seq<Event>) {
    forall i, j :: 0 <= i < j < |log| ==> log[i].at <= log[j].at
  }

  /** No resolve takes longer than d seconds between its query and its cache entry. */
  predicate Swift(cfg: Config, table: Table, log: seq<Event>, d: real) {
    log != [] ==>
      var n := |log| - 1;
      var s := After(cfg, table, log[..n]);
      && Swift(cfg, table, log[..n], d)
      && SwiftFill(s, log[n], d)
  }

  predicate SwiftFill(s: State, e: Event, d: real) {
    e.step.Fill? && e.step.read < |s.open| ==> e.at - s.open[e.step.read].at <= d
  }

  /** The value was the layered resolution of the table when it was read. */
  predicate ReadThen(cfg: Config, table: Table, log: seq<Event>, r: Read) {
    && r.asked < |log| && log[r.asked].at == r.at
    && Layered(cfg, After(cfg, table, log[..r.asked]).table, r.key) == Returned(r.value)
  }

  lemma StillReadThen(cfg: Config, table: Table, log: seq<Event>, e: Event, r: Read)
    requires ReadThen(cfg, table, log, r)
    ensures ReadThen(cfg, table, log + [e], r)
  {
    assert (log + [e])[..r.asked] == log[..r.asked];
  }

  /** Where everything open or cached comes from, and when it was read. */
  ghost predicate Traced(cfg: Config, table: Table, log: seq<Event>, d: real) {
    var s := After(cfg, table, log);
    && (forall j :: 0 <= j < |s.open| ==> ReadThen(cfg, table, log, s.open[j]))
    && (forall key :: key in s.cache ==>
          && s.cache[key].read.key == key && ReadThen(cfg, table, log, s.cache[key].read)
          && s.cache[key].expiry <= s.cache[key].read.at + d + CACHE_TTL_SECONDS)
    && (s.client.Some? ==> Usable(s.client.value) && ReadThen(cfg, table, log, s.client.value))
  }

  lemma {:induction false} AfterSnoc(cfg: Config, table: Table, log: seq<Event>, e: Event)
    ensures After(cfg, table, log + [e]) == Next(cfg, After(cfg, table, log), e, |log|)
  {
    assert (log + [e])[..|log|] == log;
  }

  lemma {:induction false} OpenTraced(cfg: Config, table: Table, log: seq<Event>, e: Event, d: real, r: Read)
    requires Traced(cfg, table, log, d) && r in After(cfg, table, log + [e]).open
    ensures ReadThen(cfg, table, log + [e], r)
  {
    AfterSnoc(cfg, table, log, e);
    if r in After(cfg, table, log).open {
      StillReadThen(cfg, table, log, e, r);
    } else {
      assert (log + [e])[..|log|] == log;
      hide After, Layered;
    }
  }

  lemma {:induction false} CacheTraced(cfg: Config, table: Table, log: seq<Event>, e: Event, d: real, key: string)
    requires Traced(cfg, table, log, d) && SwiftFill(After(cfg, table, log), e, d)
    requires key in After(cfg, table, log + [e]).cache
    ensures var c := After(cfg, table, log + [e]).cache[key];
            && c.read.key == key && ReadThen(cfg, table, log + [e], c.read)
            && c.expiry <= c.read.at + d + CACHE_TTL_SECONDS
  {
    AfterSnoc(cfg, table, log, e);
    hide After, Layered, ReadThen;
    var s, c := After(cfg, table, log), After(cfg, table, log + [e]).cache[key];
    if key in s.cache && s.cache[key] == c {
      StillReadThen(cfg, table, log, e, c.read);
    } else {
      StillReadThen(cfg, table, log, e, s.open[e.step.read]);
    }
  }

  lemma {:induction false} ClientTraced(cfg: Config, table: Table, log: seq<Event>, e: Event, d: real)
    requires Traced(cfg, table, log, d) && After(cfg, table, log + [e]).client.Some?
    ensures var r := After(cfg, table, log + [e]).client.value;
            Usable(r) && ReadThen(cfg, table, log + [e], r)
  {
    AfterSnoc(cfg, table, log, e);
    hide After, Layered, ReadThen;
    StillReadThen(cfg, table, log, e, After(cfg, table, log + [e]).client.value);
  }

  lemma {:induction false} StepTraced(cfg: Config, table: Table, log: seq<Event>, e: Event, d: real)
    requires Traced(cfg, table, log, d) && SwiftFill(After(cfg, table, log), e, d)
    ensures Traced(cfg, table, log + [e], d)
  {
    var t := After(cfg, table, log + [e]);
    forall j | 0 <= j < |t.open|
      ensures ReadThen(cfg, table, log + [e], t.open[j])
    {
      OpenTraced(cfg, table, log, e, d, t.open[j]);
    }
    forall key | key in t.cache
      ensures t.cache[key].read.key == key && ReadThen(cfg, table, log + [e], t.cache[key].read)
      ensures t.cache[key].expiry <= t.cache[key].read.at + d + CACHE_TTL_SECONDS
    {
      CacheTraced(cfg, table, log, e, d, key);
    }
    if t.client.Some? {
      ClientTraced(cfg, table, log, e, d);
    }
    hide After, ReadThen, SwiftFill;
  }

  lemma {:induction false} RunTraced(cfg: Config, table: Table, log: seq<Event>, d: real)
    requires Swift(cfg, table, log, d)
    ensures Traced(cfg, table, log, d)
  {
    if log != [] {
      var n := |log| - 1;
      RunTraced(cfg, table, log[..n], d);
      hide Traced, SwiftFill, After;
      StepTraced(cfg, table, log[..n], log[n], d);
      assert log == log[..n] + [log[n]];
    }
  }

  /**
   Bounded staleness with overlapping operations and any other writers: when no resolve takes
   longer than d seconds, a value returned at time t is the layered resolution of the table at
   some instant in (t - 30 s - d, t].
   */
  lemma {:induction false} OverlappingStaleness(cfg: Config, table: Table, log: seq<Event>, d: real)
    requires log != [] && Chronological(log) && d >= 0.0 && Swift(cfg, table, log, d)
    requires Served(After(cfg, table, log[..|log| - 1]), log[|log| - 1]).Some?
    ensures var n := |log| - 1;
            var r := Served(After(cfg, table, log[..n]), log[n]).value;
            && ReadThen(cfg, table, log[..n], r)
            && log[n].at - CACHE_TTL_SECONDS - d < r.at <= log[n].at
            && (log[n].step.Ask? ==> r.key == log[n].step.key)
  {
    var n := |log| - 1;
    RunTraced(cfg, table, log[..n], d);
    assert SwiftFill(After(cfg, table, log[..n]), log[n], d);
    hide After, Layered, Swift;
  }

  /** From the end of the log on, whatever happens, no entry for the key comes from a read before position n. */
  ghost predicate CacheStaysLater(cfg: Config, table: Table, log: seq<Event>, key: string, n: nat) {
    forall more: seq<Event> :: Chronological(log + more) && key in After(cfg, table, log + more).cache ==>
      After(cfg, table, log + more).cache[key].read.asked >= n
  }

  /** Whatever is open or cached for the key was read at position n or later. */
  predicate ReadsFrom(s: State, key: string, n: nat) {
    && (key in s.cache ==> s.cache[key].read.asked >= n)
    && (forall j :: 0 <= j < |s.open| && s.open[j].key == key ==> s.open[j].asked >= n)
  }

  lemma NextReadsFrom(cfg: Config, s: State, e: Event, position: nat, key: string, n: nat)
    requires ReadsFrom(s, key, n) && position >= n
    ensures ReadsFrom(Next(cfg, s, e, position), key, n)
  {
    hide Layered, Hit, Usable;
    var t := Next(cfg, s, e, position);
    forall j | 0 <= j < |t.open| && t.open[j].key == key
      ensures t.open[j].asked >= n
    {
      OpenWas(cfg, s, e, position, j);
      hide Next;
    }
  }

  /** An open read was open before, or it is the one that the event asks. */
  lemma OpenWas(cfg: Config, s: State, e: Event, position: nat, j: nat)
    requires j < |Next(cfg, s, e, position).open|
    ensures var r := Next(cfg, s, e, position).open[j];
            r.asked == position || exists i :: 0 <= i < |s.open| && s.open[i] == r
  {
    hide Layered, Hit, Usable;
    var r := Next(cfg, s, e, position).open[j];
    if e.step.Fill? && e.step.read < |s.open| {
      assert r == s.open[if j < e.step.read then j else j + 1];
    } else if j < |s.open| {
      assert r == s.open[j];
    }
  }

  lemma {:induction false} LaterReads(
      cfg: Config, table: Table, log: seq<Event>, more: seq<Event>, key: string, n: nat)
    requires n <= |log| && ReadsFrom(After(cfg, table, log), key, n)
    ensures ReadsFrom(After(cfg, table, log + more), key, n)
  {
    hide After, ReadsFrom;
    if more == [] {
      assert log + more == log;
    } else {
      var m := |more| - 1;
      var before := log + more[..m];
      LaterReads(cfg, table, log, more[..m], key, n);
      assert log + more == before + [more[m]];
      AfterSnoc(cfg, table, before, more[m]);
      NextReadsFrom(cfg, After(cfg, table, before), more[m], |before|, key, n);
    }
  }

  /** One more event at the time of the last one. */
  lemma AtOnce(log: seq<Event>, step: Step)
    requires log != [] && Chronological(log)
    ensures Chronological(log + [Event(log[|log| - 1].at, step)])
  {
  }

  /** This store's own write of the key is committed at position c and invalidated by the last event. */
  predicate EndsInInvalidation(log: seq<Event>, key: string, c: nat) {
    && c + 1 < |log| && log[c].step.Commit? && log[c].step.key == key
    && log[|log| - 1].step == Invalidate(key)
  }

  lemma {:induction false} NothingCached(cfg: Config, table: Table, log: seq<Event>, key: string)
    requires log != [] && log[|log| - 1].step == Invalidate(key)
    ensures key !in After(cfg, table, log).cache
  {
  }

  /**
   Exactly when an invalidation holds, whatever happened since the commit: no value read before the
   commit is ever cached after it, in any continuation, if and only if no resolve of the key has
   such a value between its query and its cache entry.
   */
  lemma {:induction false} InvalidationHoldsIff(cfg: Config, table: Table, log: seq<Event>, key: string, c: nat)
    requires Chronological(log) && EndsInInvalidation(log, key, c)
    ensures var s := After(cfg, table, log);
            CacheStaysLater(cfg, table, log, key, c + 1) <==>
            forall j :: 0 <= j < |s.open| && s.open[j].key == key ==> s.open[j].asked > c
  {
    NothingCached(cfg, table, log, key);
    hide After, Layered;
    var s := After(cfg, table, log);
    if forall j :: 0 <= j < |s.open| && s.open[j].key == key ==> s.open[j].asked > c {
      forall more: seq<Event> | key in After(cfg, table, log + more).cache
        ensures After(cfg, table, log + more).cache[key].read.asked >= c + 1
      {
        LaterReads(cfg, table, log, more, key, c + 1);
      }
    } else {
      var j: nat :| j < |s.open| && s.open[j].key == key && s.open[j].asked <= c;
      var fill := Event(log[|log| - 1].at, Fill(j));
      AtOnce(log, Fill(j));
      AfterSnoc(cfg, table, log, fill);
      assert key in After(cfg, table, log + [fill]).cache;
    }
  }

  // ---- The client ----

  /**
   Whatever may become or is a client from time `since` on was read at position n or later; an
   earlier token may still be cached if its entry has expired.
   */
  predicate TokensFrom(s: State, n: nat, since: real) {
    && (BOT_TOKEN in s.cache && Usable(s.cache[BOT_TOKEN].read) && s.cache[BOT_TOKEN].read.asked < n ==>
          s.cache[BOT_TOKEN].expiry <= since)
    && (forall j :: 0 <= j < |s.open| && Usable(s.open[j]) ==> s.open[j].asked >= n)
    && (s.client.Some? ==> s.client.value.asked >= n)
  }

  lemma FilledTokensFrom(cfg: Config, s: State, e: Event, position: nat, n: nat, since: real)
    requires TokensFrom(s, n, since) && e.step.Fill?
    ensures TokensFrom(Next(cfg, s, e, position), n, since)
  {
    hide Usable;
    if e.step.read < |s.open| {
      var t := Next(cfg, s, e, position);
      assert forall j :: 0 <= j < |t.open| ==> t.open[j] == s.open[if j < e.step.read then j else j + 1];
    }
  }

  lemma NextTokensFrom(cfg: Config, s: State, e: Event, position: nat, n: nat, since: real)
    requires TokensFrom(s, n, since) && position >= n && e.at >= since
    ensures TokensFrom(Next(cfg, s, e, position), n, since)
  {
    hide Layered;
    if e.step.Fill? {
      FilledTokensFrom(cfg, s, e, position, n, since);
      hide Next;
    }
  }

  lemma {:induction false} LaterTokens(
      cfg: Config, table: Table, log: seq<Event>, more: seq<Event>, n: nat, since: real)
    requires n <= |log| && TokensFrom(After(cfg, table, log), n, since)
    requires forall i :: 0 <= i < |more| ==> more[i].at >= since
    ensures TokensFrom(After(cfg, table, log + more), n, since)
  {
    hide After, TokensFrom;
    if more == [] {
      assert log + more == log;
    } else {
      var m := |more| - 1;
      var before := log + more[..m];
      LaterTokens(cfg, table, log, more[..m], n, since);
      assert log + more == before + [more[m]];
      AfterSnoc(cfg, table, before, more[m]);
      NextTokensFrom(cfg, After(cfg, table, before), more[m], |before|, n, since);
    }
  }

  /** From the end of the log on, every client that is held was built from a token read at position n or later. */
  ghost predicate ClientStaysLater(cfg: Config, table: Table, log: seq<Event>, n: nat) {
    forall more: seq<Event> :: Chronological(log + more) && After(cfg, table, log + more).client.Some? ==>
      After(cfg, table, log + more).client.value.asked >= n
  }

  /** The token is committed at position c, and the last event drops the client; anything may lie in between. */
  predicate EndsInReload(log: seq<Event>, c: nat) {
    && c + 1 < |log| && log[c].step.Commit? && log[c].step.key == BOT_TOKEN
    && log[|log| - 1].step == Reload
  }

  lemma {:induction false} NothingHeld(cfg: Config, table: Table, log: seq<Event>)
    requires log != [] && log[|log| - 1].step == Reload
    ensures After(cfg, table, log).client.None?
  {
  }

  /** An earlier token is still about: in the hands of a resolve, or in a cache entry that has not expired. */
  predicate EarlierTokenLeft(s: State, c: nat, now: real) {
    || (exists j :: 0 <= j < |s.open| && Usable(s.open[j]) && s.open[j].asked <= c)
    || (Hit(s, BOT_TOKEN, now) && Usable(s.cache[BOT_TOKEN].read) && s.cache[BOT_TOKEN].read.asked <= c)
  }

  /**
   Exactly when dropping the client holds, whatever happened since the commit: no client is ever held
   again that was built from a token read before the commit, in any continuation, if and only if no
   such token is left.
   */
  lemma {:induction false} ReloadHoldsIff(cfg: Config, table: Table, log: seq<Event>, c: nat)
    requires Chronological(log) && EndsInReload(log, c)
    ensures ClientStaysLater(cfg, table, log, c + 1) <==>
            !EarlierTokenLeft(After(cfg, table, log), c, log[|log| - 1].at)
  {
    NothingHeld(cfg, table, log);
    var now := log[|log| - 1].at;
    if !EarlierTokenLeft(After(cfg, table, log), c, now) {
      ClientLaterWithout(cfg, table, log, c);
    } else {
      EarlierTokenConnects(cfg, table, log, c);
    }
  }

  lemma {:induction false} ClientLaterWithout(cfg: Config, table: Table, log: seq<Event>, c: nat)
    requires Chronological(log) && EndsInReload(log, c) && After(cfg, table, log).client.None?
    requires !EarlierTokenLeft(After(cfg, table, log), c, log[|log| - 1].at)
    ensures ClientStaysLater(cfg, table, log, c + 1)
  {
    hide After, Layered, Usable;
    var now := log[|log| - 1].at;
    assert TokensFrom(After(cfg, table, log), c + 1, now);
    forall more: seq<Event> | Chronological(log + more) && After(cfg, table, log + more).client.Some?
      ensures After(cfg, table, log + more).client.value.asked >= c + 1
    {
      forall i | 0 <= i < |more|
        ensures more[i].at >= now
      {
        assert (log + more)[|log| + i] == more[i] && (log + more)[|log| - 1] == log[|log| - 1];
      }
      LaterTokens(cfg, table, log, more, c + 1, now);
    }
  }

  lemma {:induction false} EarlierTokenConnects(cfg: Config, table: Table, log: seq<Event>, c: nat)
    requires Chronological(log) && EndsInReload(log, c) && After(cfg, table, log).client.None?
    requires EarlierTokenLeft(After(cfg, table, log), c, log[|log| - 1].at)
    ensures !ClientStaysLater(cfg, table, log, c + 1)
  {
    hide After, Layered;
    var s, now := After(cfg, table, log), log[|log| - 1].at;
    var connect := Event(now, Connect);
    if Hit(s, BOT_TOKEN, now) && Usable(s.cache[BOT_TOKEN].read) && s.cache[BOT_TOKEN].read.asked <= c {
      AtOnce(log, Connect);
      AfterSnoc(cfg, table, log, connect);
      assert After(cfg, table, log + [connect]).client == Some(s.cache[BOT_TOKEN].read);
    } else {
      var j: nat :| j < |s.open| && Usable(s.open[j]) && s.open[j].asked <= c;
      var fill := Event(now, Fill(j));
      AtOnce(log, Fill(j));
      AtOnce(log + [fill], Connect);
      AfterSnoc(cfg, table, log, fill);
      AfterSnoc(cfg, table, log + [fill], connect);
      assert log + [fill] + [connect] == log + ([fill] + [connect]);
      assert After(cfg, table, log + ([fill] + [connect])).client == Some(s.open[j]);
    }
  }

  /** A held client has no expiry: it stays until the next reload, however long that takes. */
  lemma {:induction false} ClientStays(cfg: Config, table: Table, log: seq<Event>, more: seq<Event>)
    requires After(cfg, table, log).client.Some?
    requires forall n :: 0 <= n < |more| ==> !more[n].step.Reload?
    ensures After(cfg, table, log + more).client == After(cfg, table, log).client
  {
    if more == [] {
      assert log + more == log;
    } else {
      var n := |more| - 1;
      ClientStays(cfg, table, log, more[..n]);
      assert log + more == log + more[..n] + [more[n]];
      AfterSnoc(cfg, table, log + more[..n], more[n]);
      hide After, Layered;
    }
  }

  /** A write is committed and invalidated between the query of a resolve and its cache entry. */
  function StaleRun(key: string, row: Stored, at: real): seq<Event> {
    [Event(at, Ask(key))] + [Event(at, Commit(key, Some(row)))] + [Event(at, Invalidate(key))] + [Event(at, Fill(0))]
  }

  /** The value from before the write stays behind, and the next resolve returns that. */
  lemma InterleavedResolveGoesStale(cfg: Config, table: Table, key: string, row: Stored, at: real)
    requires Layered(cfg, table, key).Returned?
    ensures var s := After(cfg, table, StaleRun(key, row, at));
            && Served(s, Event(at, Ask(key))) == Some(Read(key, Layered(cfg, table, key).value, 0, at))
            && Layered(cfg, s.table, key) == Layered(cfg, table[key := row], key)
  {
    var ask, commit, drop, fill :=
      Event(at, Ask(key)), Event(at, Commit(key, Some(row))), Event(at, Invalidate(key)), Event(at, Fill(0));
    var read := Read(key, Layered(cfg, table, key).value, 0, at);
    assert [] + [ask] == [ask];
    assert After(cfg, table, []) == State(table, map[], [], None);
    hide After, Layered;
    AfterSnoc(cfg, table, [], ask);
    assert After(cfg, table, [ask]) == State(table, map[], [read], None);
    AfterSnoc(cfg, table, [ask], commit);
    AfterSnoc(cfg, table, [ask] + [commit], drop);
    AfterSnoc(cfg, table, [ask] + [commit] + [drop], fill);
  }

  /** The token is written while a resolve has the old one in hand; then someone asks for the client. */
  function StaleClientRun(row: Stored, at: real): seq<Event> {
    [Event(at, Ask(BOT_TOKEN))] + [Event(at, Commit(BOT_TOKEN, Some(row)))] + [Event(at, Invalidate(BOT_TOKEN))]
    + [Event(at, Reload)] + [Event(at, Fill(0))] + [Event(at, Connect)]
  }

  /** The client carries the old token, and keeps it for good unless another write reloads it. */
  lemma {:induction false} ClientGoesStale(cfg: Config, table: Table, row: Stored, at: real, more: seq<Event>)
    requires Layered(cfg, table, BOT_TOKEN).Returned?
    requires Usable(Read(BOT_TOKEN, Layered(cfg, table, BOT_TOKEN).value, 0, at))
    requires forall n :: 0 <= n < |more| ==> !more[n].step.Reload?
    ensures var s := After(cfg, table, StaleClientRun(row, at) + more);
            s.client == Some(Read(BOT_TOKEN, Layered(cfg, table, BOT_TOKEN).value, 0, at))
  {
    var read := Read(BOT_TOKEN, Layered(cfg, table, BOT_TOKEN).value, 0, at);
    var ask, commit := Event(at, Ask(BOT_TOKEN)), Event(at, Commit(BOT_TOKEN, Some(row)));
    var drop := Event(at, Invalidate(BOT_TOKEN));
    var reload, fill, connect := Event(at, Reload), Event(at, Fill(0)), Event(at, Connect);
    assert [] + [ask] == [ask];
    assert After(cfg, table, []) == State(table, map[], [], None);
    hide After, Layered;
    AfterSnoc(cfg, table, [], ask);
    assert After(cfg, table, [ask]) == State(table, map[], [read], None);
    AfterSnoc(cfg, table, [ask], commit);
    AfterSnoc(cfg, table, [ask] + [commit], drop);
    AfterSnoc(cfg, table, [ask] + [commit] + [drop], reload);
    var written := [ask] + [commit] + [drop] + [reload];
    assert After(cfg, table, written) == State(table[BOT_TOKEN := row], map[], [read], None);
    AfterSnoc(cfg, table, written, fill);
    AfterSnoc(cfg, table, written + [fill], connect);
    assert After(cfg, table, written + [fill] + [connect]).client == Some(read);
    hide Next;
    ClientStays(cfg, table, StaleClientRun(row, at), more);
  }

  /**
   The reload that waits for the registry's lock: get_bale_client caches and connects the token it
   has in hand, the reload drops that client, and the next call finds the old token in the cache.
   */
  function WaitingReloadRun(row: Stored, at: real): seq<Event> {
    [Event(at, Ask(BOT_TOKEN))] + [Event(at, Commit(BOT_TOKEN, Some(row)))] + [Event(at, Invalidate(BOT_TOKEN))]
    + [Event(at, Fill(0))] + [Event(at, Connect)] + [Event(at, Reload)] + [Event(at, Connect)]
  }

  lemma {:induction false} WaitingReloadGoesStale(cfg: Config, table: Table, row: Stored, at: real, more: seq<Event>)
    requires Layered(cfg, table, BOT_TOKEN).Returned?
    requires Usable(Read(BOT_TOKEN, Layered(cfg, table, BOT_TOKEN).value, 0, at))
    requires forall n :: 0 <= n < |more| ==> !more[n].step.Reload?
    ensures var s := After(cfg, table, WaitingReloadRun(row, at) + more);
            s.client == Some(Read(BOT_TOKEN, Layered(cfg, table, BOT_TOKEN).value, 0, at))
  {
    var read := Read(BOT_TOKEN, Layered(cfg, table, BOT_TOKEN).value, 0, at);
    var ask, commit := Event(at, Ask(BOT_TOKEN)), Event(at, Commit(BOT_TOKEN, Some(row)));
    var drop, fill := Event(at, Invalidate(BOT_TOKEN)), Event(at, Fill(0));
    var connect, reload := Event(at, Connect), Event(at, Reload);
    assert [] + [ask] == [ask];
    assert After(cfg, table, []) == State(table, map[], [], None);
    hide After, Layered;
    AfterSnoc(cfg, table, [], ask);
    assert After(cfg, table, [ask]) == State(table, map[], [read], None);
    AfterSnoc(cfg, table, [ask], commit);
    AfterSnoc(cfg, table, [ask] + [commit], drop);
    var written := [ask] + [commit] + [drop];
    assert After(cfg, table, written) == State(table[BOT_TOKEN := row], map[], [read], None);
    AfterSnoc(cfg, table, written, fill);
    var filled := State(table[BOT_TOKEN := row], map[BOT_TOKEN := Cached(at + CACHE_TTL_SECONDS, read)], [], None);
    assert After(cfg, table, written + [fill]) == filled;
    AfterSnoc(cfg, table, written + [fill], connect);
    AfterSnoc(cfg, table, written + [fill] + [connect], reload);
    assert After(cfg, table, written + [fill] + [connect] + [reload]) == filled;
    AfterSnoc(cfg, table, written + [fill] + [connect] + [reload], connect);
    assert After(cfg, table, written + [fill] + [connect] + [reload] + [connect]).client == Some(read);
    hide Next;
    ClientStays(cfg, table, WaitingReloadRun(row, at), more);
  }

  // ---- Without overlap, these events are the operations ----

  /** What the store and the registry hold, without the history of the reads. */
  function Seen(s: State): World {
    World(Store(s.table, map key | key in s.cache :: Entry(s.cache[key].expiry, s.cache[key].read.value)),
          if s.client.Some? then s.client.value.value.value else None)
  }

  /** A resolve with nothing in between is its query followed by its cache entry. */
  lemma ResolveIsAskThenFill(cfg: Config, s: State, key: string, now: real, n: nat)
    requires s.open == []
    ensures var asked := Next(cfg, s, Event(now, Ask(key)), n);
            var filled := Next(cfg, asked, Event(now, Fill(0)), n + 1);
            var served := if Hit(s, key, now) then Served(s, Event(now, Ask(key)))
                          else Served(asked, Event(now, Fill(0)));
            && filled.open == []
            && Seen(filled) == Seen(s).(store := Resolve(cfg, Seen(s).store, key, now).1)
            && Resolve(cfg, Seen(s).store, key, now).0 == if served.Some? then Returned(served.value.value) else Raised
  {
    hide Layered;
    var asked := Next(cfg, s, Event(now, Ask(key)), n);
    if asked.open != [] {
      assert asked.open[..0] + asked.open[1..] == [];
    }
  }

  /** A write of a known key is its commit, its invalidation and, for the keys that call for it, the reload. */
  lemma WriteIsItsEvents(cfg: Config, s: State, key: string, value: Option<string>, at: real, n: nat)
    requires key in cfg.defs
    ensures var row := if value.Some? then Some(Sealing(cfg, key, value.value)) else None;
            var committed := Next(cfg, s, Event(at, Commit(key, row)), n);
            var written := Next(cfg, committed, Event(at, Invalidate(key)), n + 1);
            var done := if key in RELOAD_KEYS then Next(cfg, written, Event(at, Reload), n + 2) else written;
            var before := Seen(s).store;
            var store := if value.Some? then Set(cfg, before, key, value.value) else Clear(cfg, before, key);
            done.open == s.open && Seen(done) == AfterWrite(cfg, Seen(s), key, store)
  {
    hide Sealing;
  }

  /** A call of get_bale_client is a resolve of the token, unless a client is held, and the building of the client. */
  lemma ClientIsItsEvents(cfg: Config, s: State, now: real, n: nat)
    requires s.open == [] && (s.client.Some? ==> Usable(s.client.value))
    requires forall key :: key in s.cache ==> s.cache[key].read.key == key
    ensures var asked := if s.client.Some? then s else Next(cfg, s, Event(now, Ask(BOT_TOKEN)), n);
            var filled := if s.client.Some? then s else Next(cfg, asked, Event(now, Fill(0)), n + 1);
            Seen(Next(cfg, filled, Event(now, Connect), n + 2)) == GetClient(cfg, Seen(s), now)
  {
    hide Layered;
    if s.client.None? {
      ResolveIsAskThenFill(cfg, s, BOT_TOKEN, now, n);
    }
  }
}
