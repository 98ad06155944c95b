/** What a whole run of settings operations guarantees about the values it returns. */
module SettingsHistory {
  import opened Wrappers
  import opened Settings

  datatype Op =
    | OpResolve(key: string)
    | OpSet(key: string, value: string)
    | OpClear(key: string)
    | OpClient
    | OpForeign(key: string, row: Option<Stored>)     // another writer stores or deletes a row

  datatype Event = Event(at: real, op: Op)

  function Apply(cfg: Config, w: World, e: Event): World {
    match e.op
    case OpResolve(key) => w.(store := Resolve(cfg, w.store, key, e.at).1)
    case OpSet(key, value) => AfterWrite(cfg, w, key, Set(cfg, w.store, key, value))
    case OpClear(key) => AfterWrite(cfg, w, key, Clear(cfg, w.store, key))
    case OpClient => GetClient(cfg, w, e.at)
    case OpForeign(key, row) =>
      w.(store := w.store.(table := if row.Some? then w.store.table[key := row.value] else w.store.table - {key}))
  }

  function Run(cfg: Config, start: World, events: seq<Event>): World {
    if events == [] then start else Apply(cfg, Run(cfg, start, events[..|events| - 1]), events[|events| - 1])
  }

  predicate Chronological(events: seq<Event>) {
    forall i, j :: 0 <= i < j < |events| ==> events[i].at <= events[j].at
  }

  predicate OnlyWriter(events: seq<Event>) {
    forall i :: 0 <= i < |events| ==> !events[i].op.OpForeign?
  }

  // ---- One writer: the cache is invisible ----

  /** Every cached value is what the layers say now, and the held client carries the current token. */
  ghost predicate Coherent(cfg: Config, w: World) {
    && (forall key :: key in w.store.cache ==> Layered(cfg, w.store.table, key) == Returned(w.store.cache[key].value))
    && (w.client.Some? ==> ClientCurrent(cfg, w))
  }

  predicate ClientCurrent(cfg: Config, w: World) {
    var r := Layered(cfg, w.store.table, BOT_TOKEN);
    w.client.Some? && r.Returned? && r.value.value == w.client && w.client.value != ""
  }

  lemma StepCoherent(cfg: Config, w: World, e: Event)
    requires Coherent(cfg, w) && !e.op.OpForeign?
    ensures Coherent(cfg, Apply(cfg, w, e))
    ensures e.op.OpResolve? ==> Resolve(cfg, w.store, e.op.key, e.at).0 == Layered(cfg, w.store.table, e.op.key)
  {
    if (e.op.OpSet? || e.op.OpClear?) && e.op.key in cfg.defs {
      var t := Apply(cfg, w, e);
      forall key | key in t.store.cache
        ensures Layered(cfg, t.store.table, key) == Layered(cfg, w.store.table, key)
      {
        assert key != e.op.key;
      }
      assert BOT_TOKEN in RELOAD_KEYS;
    }
  }

  lemma {:induction false} RunCoherent(cfg: Config, start: World, events: seq<Event>)
    requires Coherent(cfg, start) && OnlyWriter(events)
    ensures Coherent(cfg, Run(cfg, start, events))
  {
    if events != [] {
      RunCoherent(cfg, start, events[..|events| - 1]);
      StepCoherent(cfg, Run(cfg, start, events[..|events| - 1]), events[|events| - 1]);
    }
  }

  /**
   Transparency: after any sequence of operations by the only writer, at any times whatever,
   a resolve returns exactly the uncached resolution: value, source, secrecy and hint.
   */
  lemma {:induction false} CacheTransparent(cfg: Config, table: Table, events: seq<Event>, key: string, now: real)
    requires OnlyWriter(events)
    ensures var w := Run(cfg, World(Store(table, map[]), None), events);
            Resolve(cfg, w.store, key, now).0 == Layered(cfg, w.store.table, key)
  {
    var start := World(Store(table, map[]), None);
    RunCoherent(cfg, start, events);
    StepCoherent(cfg, Run(cfg, start, events), Event(now, OpResolve(key)));
  }

  /** Registry coherence: a client handed out carries the token that bale.bot_token resolves to now. */
  lemma {:induction false} ClientFollowsToken(cfg: Config, table: Table, events: seq<Event>, now: real)
    requires OnlyWriter(events)
    ensures var w := Run(cfg, World(Store(table, map[]), None), events);
            var c := GetClient(cfg, w, now);
            var token := Layered(cfg, w.store.table, BOT_TOKEN);
            && (c.client.Some? <==> token.Returned? && token.value.value.Some? && token.value.value.value != "")
            && (c.client.Some? ==> token.value.value == c.client)
  {
    var start := World(Store(table, map[]), None);
    RunCoherent(cfg, start, events);
    StepCoherent(cfg, Run(cfg, start, events), Event(now, OpResolve(BOT_TOKEN)));
  }

  /** A written value is read back, encrypted or not, with the masked hint only for secrets. */
  lemma SetThenResolve(cfg: Config, s: Store, key: string, value: string, now: real)
    requires key in cfg.defs
    ensures var secret := cfg.defs[key].isSecret;
            Resolve(cfg, Set(cfg, s, key, value), key, now).0 ==
            Returned(Resolved(Some(value), FromDb, secret, if secret then Some(MaskSecret(value)) else None))
  {
  }

  /** The hint that is shown of a secret: at most its last four characters. */
  lemma HintShowsFour(plain: string)
    ensures MaskSecret(plain) == "…" + (if |plain| <= 4 then plain else plain[|plain| - 4..])
    ensures |MaskSecret(plain)| <= 5
  {
  }

  /** The environment's value for a key: its decoded fallback variable, else its own variable. */
  lemma FallbackBeforeVariable(cfg: Config, key: string)
    requires key in cfg.defs
    ensures var fallback := if key in cfg.fallbackVar then {cfg.fallbackVar[key]} else {};
            && (forall name :: name in fallback && name in cfg.decoded ==>
                  EnvValue(cfg, key) == Some(cfg.decoded[name]))
            && ((forall name :: name in fallback ==> name !in cfg.decoded) ==>
                  var own := cfg.defs[key].envVar;
                  EnvValue(cfg, key) == if own in cfg.env then Some(cfg.env[own]) else None)
  {
  }

  /** A row answers before the environment: opened if sealed, and nothing is cached when it cannot be opened. */
  lemma DatabaseFirst(cfg: Config, s: Store, key: string, now: real)
    requires key in cfg.defs && key in s.table && !Fresh(s, key, now)
    ensures match s.table[key]
            case Plain(text, secret) =>
              Resolve(cfg, s, key, now).0 == Returned(Resolved(Some(text), FromDb, secret, None))
            case Encrypted(sealed, _) =>
              if sealed.key == cfg.encryptionKey then
                Resolve(cfg, s, key, now).0 ==
                Returned(Resolved(Some(sealed.plain), FromDb, true, Some(MaskSecret(sealed.plain))))
              else Resolve(cfg, s, key, now) == (Raised, s)
  {
  }

  /**
   A cleared key has no row, and a resolve gives what lies beneath: the value of the environment,
   with a hint if the key is secret, and without one the default of its definition, without a hint.
   */
  lemma ClearThenResolve(cfg: Config, s: Store, key: string, now: real)
    requires key in cfg.defs
    ensures var d, env := cfg.defs[key], EnvValue(cfg, key);
            && key !in Clear(cfg, s, key).table
            && Resolve(cfg, Clear(cfg, s, key), key, now).0 ==
               Returned(if env.Some? then
                          Resolved(env, FromEnv, d.isSecret, if d.isSecret then Some(MaskSecret(env.value)) else None)
                        else Resolved(d.default, FromDefault, d.isSecret, None))
  {
  }

  /** A write stores a secret sealed and any other value plainly, and forgets what was cached of the key. */
  lemma WritesOwnKey(cfg: Config, s: Store, key: string, value: string)
    requires key in cfg.defs
    ensures key in Set(cfg, s, key, value).table
    ensures Set(cfg, s, key, value).table[key] ==
            if cfg.defs[key].isSecret then Encrypted(Sealed(cfg.encryptionKey, value), true) else Plain(value, false)
    ensures key !in Set(cfg, s, key, value).cache && key !in Clear(cfg, s, key).cache
  {
  }

  /** A write leaves every other key alone, its row and its cached value; of an unknown key nothing is written. */
  lemma WritesNoOtherKey(cfg: Config, s: Store, key: string, value: string, other: string)
    requires other != key || key !in cfg.defs
    ensures forall t :: t == Set(cfg, s, key, value) || t == Clear(cfg, s, key) ==>
              && (other in t.table <==> other in s.table) && (other in s.table ==> t.table[other] == s.table[other])
              && (other in t.cache <==> other in s.cache) && (other in s.cache ==> t.cache[other] == s.cache[other])
  {
  }

  /** A resolved value is served for thirty seconds, whatever the table says by then, and no longer. */
  lemma ServedForThirtySeconds(cfg: Config, s: Store, key: string, at: real, table: Table, later: real)
    requires !Fresh(s, key, at) && Resolve(cfg, s, key, at).0.Returned?
    ensures var filled := Resolve(cfg, s, key, at).1.(table := table);
            Resolve(cfg, filled, key, later).0 ==
            if later < at + 30.0 then Resolve(cfg, s, key, at).0 else Layered(cfg, table, key)
  {
  }

  /** A held client is handed out again without a resolve; a write drops it exactly for six keys. */
  lemma ClientIsHeld(cfg: Config, w: World, now: real, key: string, store: Store)
    requires w.client.Some? && key in cfg.defs
    ensures GetClient(cfg, w, now) == w
    ensures AfterWrite(cfg, w, key, store).client ==
            if key in ["bale.bot_token", "llm.api_key", "llm.base_url", "transcription.backend",
                       "transcription.model", "transcription.local_model"]
            then None else w.client
  {
  }

  // ---- Other writers: bounded staleness ----

  /** This store itself writes the key. */
  predicate OwnWrite(op: Op, key: string) {
    (op.OpSet? || op.OpClear?) && op.key == key
  }

  /**
   The origin of a cached value: event i read it from the table as it was then, the entry
   expires 30 seconds after i, and this store has not written the key since.
   */
  predicate ReadAt(cfg: Config, start: World, events: seq<Event>, key: string, value: Resolved, i: nat) {
    && i < |events|
    && Layered(cfg, Run(cfg, start, events[..i]).store.table, key) == Returned(value)
    && forall k :: i <= k < |events| ==> !OwnWrite(events[k].op, key)
  }

  lemma {:induction false} CacheOrigin(cfg: Config, start: World, events: seq<Event>, key: string) returns (i: nat)
    requires start.store.cache == map[] && key in cfg.defs
    requires key in Run(cfg, start, events).store.cache
    ensures var entry := Run(cfg, start, events).store.cache[key];
            ReadAt(cfg, start, events, key, entry.value, i) && entry.expiry == events[i].at + CACHE_TTL_SECONDS
  {
    var n := |events| - 1;
    var before, e := Run(cfg, start, events[..n]), events[n];
    var after := Run(cfg, start, events);
    if key in before.store.cache && after.store.cache[key] == before.store.cache[key] && !OwnWrite(e.op, key) {
      i := CacheOrigin(cfg, start, events[..n], key);
      assert events[..n][..i] == events[..i];
      forall k | i <= k < |events|
        ensures !OwnWrite(events[k].op, key)
      {
        if k < n {
          assert events[..n][k] == events[k];
        }
      }
    } else {
      i := n;
      assert !OwnWrite(e.op, key);
    }
  }

  /**
   Bounded staleness: with any other writers on the same table, a value returned at time t is
   the layered resolution of the table at some instant in (t - 30 s, t], and that instant does
   not precede this store's own last write to the key.
   */
  lemma BoundedStaleness(cfg: Config, table: Table, events: seq<Event>, key: string) returns (i: nat)
    requires Chronological(events) && events != [] && key in cfg.defs
    requires events[|events| - 1].op == OpResolve(key)
    requires var n, start := |events| - 1, World(Store(table, map[]), None);
             Resolve(cfg, Run(cfg, start, events[..n]).store, key, events[n].at).0.Returned?
    ensures var n, start := |events| - 1, World(Store(table, map[]), None);
            var returned := Resolve(cfg, Run(cfg, start, events[..n]).store, key, events[n].at).0.value;
            && ReadAt(cfg, start, events, key, returned, i)
            && events[n].at - CACHE_TTL_SECONDS < events[i].at <= events[n].at
  {
    var n, start := |events| - 1, World(Store(table, map[]), None);
    var before := Run(cfg, start, events[..n]);
    if Fresh(before.store, key, events[n].at) {
      i := CacheOrigin(cfg, start, events[..n], key);
      assert events[..n][..i] == events[..i];
      forall k | i <= k < |events|
        ensures !OwnWrite(events[k].op, key)
      {
        if k < n {
          assert events[..n][k] == events[k];
        }
      }
    } else {
      i := n;
    }
  }
}
