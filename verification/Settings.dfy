/**
 The settings store as a cache (app/settings_store.py) and the client registry derived from it
 (app/providers/registry.py). Encryption is symbolic: only the key a value was sealed with opens it.
 Every operation is atomic, as it is when operations do not overlap.
 */
module Settings {
  import opened Wrappers

  const CACHE_TTL_SECONDS: real := 30.0
  const BOT_TOKEN := "bale.bot_token"
  const RELOAD_KEYS := {
    "bale.bot_token", "llm.api_key", "llm.base_url",
    "transcription.backend", "transcription.model", "transcription.local_model"}

  datatype Source = FromDb | FromEnv | FromDefault
  datatype Resolved = Resolved(value: Option<string>, source: Source, isSecret: bool, hint: Option<string>)
  datatype Definition = Definition(isSecret: bool, default: Option<string>, envVar: string)
  datatype Sealed = Sealed(key: string, plain: string)

  /** A row of app_settings: exactly one of a plain value and an encrypted one. */
  datatype Stored = Plain(text: string, isSecret: bool) | Encrypted(sealed: Sealed, isSecret: bool)

  /**
   What is fixed while the process runs: the definitions, the environment, the variables that
   hold a valid base64 text (decoded), the fallback variable of a key, and the encryption key.
   */
  datatype Config = Config(
    defs: map<string, Definition>, env: map<string, string>, decoded: map<string, string>,
    fallbackVar: map<string, string>, encryptionKey: string)

  type Table = map<string, Stored>
  datatype Entry = Entry(expiry: real, value: Resolved)
  datatype Store = Store(table: Table, cache: map<string, Entry>)

  function Encrypt(cfg: Config, plain: string): Sealed {
    Sealed(cfg.encryptionKey, plain)
  }

  function Decrypt(cfg: Config, c: Sealed): Result<string> {
    if c.key == cfg.encryptionKey then Returned(c.plain) else Raised
  }

  function MaskSecret(plain: string): string {
    if |plain| <= 4 then "…" + plain else "…" + plain[|plain| - 4..]
  }

  /** _resolve_env_value: the decoded fallback variable first, then the plain one. */
  function EnvValue(cfg: Config, key: string): Option<string>
    requires key in cfg.defs
  {
    if key in cfg.fallbackVar && cfg.fallbackVar[key] in cfg.decoded then Some(cfg.decoded[cfg.fallbackVar[key]])
    else if cfg.defs[key].envVar in cfg.env then Some(cfg.env[cfg.defs[key].envVar])
    else None
  }

  /** The layered resolution: database row, then environment, then default. */
  function Layered(cfg: Config, table: Table, key: string): Result<Resolved> {
    if key !in cfg.defs then Raised
    else if key in table then
      match table[key]
      case Plain(text, isSecret) => Returned(Resolved(Some(text), FromDb, isSecret, None))
      case Encrypted(sealed, _) =>
        (match Decrypt(cfg, sealed)
         case Returned(plain) => Returned(Resolved(Some(plain), FromDb, true, Some(MaskSecret(plain))))
         case Raised => Raised)
    else
      var secret := cfg.defs[key].isSecret;
      match EnvValue(cfg, key)
      case Some(v) => Returned(Resolved(Some(v), FromEnv, secret, if secret then Some(MaskSecret(v)) else None))
      case None => Returned(Resolved(cfg.defs[key].default, FromDefault, secret, None))
  }

  predicate Fresh(s: Store, key: string, now: real) {
    key in s.cache && now < s.cache[key].expiry
  }

  function Resolve(cfg: Config, s: Store, key: string, now: real): (Result<Resolved>, Store) {
    if Fresh(s, key, now) then (Returned(s.cache[key].value), s)
    else
      var r := Layered(cfg, s.table, key);
      if r.Raised? then (r, s)
      else (r, s.(cache := s.cache[key := Entry(now + CACHE_TTL_SECONDS, r.value)]))
  }

  function Sealing(cfg: Config, key: string, value: string): Stored
    requires key in cfg.defs
  {
    if cfg.defs[key].isSecret then Encrypted(Encrypt(cfg, value), true) else Plain(value, false)
  }

  function Set(cfg: Config, s: Store, key: string, value: string): Store {
    if key !in cfg.defs then s else Store(s.table[key := Sealing(cfg, key, value)], s.cache - {key})
  }

  function Clear(cfg: Config, s: Store, key: string): Store {
    if key !in cfg.defs then s else Store(s.table - {key}, s.cache - {key})
  }

  /** The store together with the token of the client the registry holds. */
  datatype World = World(store: Store, client: Option<string>)

  function AfterWrite(cfg: Config, w: World, key: string, store: Store): World {
    World(store, if key in cfg.defs && key in RELOAD_KEYS then None else w.client)
  }

  function GetClient(cfg: Config, w: World, now: real): World {
    if w.client.Some? then w
    else
      var r := Resolve(cfg, w.store, BOT_TOKEN, now);
      var usable := r.0.Returned? && r.0.value.value.Some? && r.0.value.value.value != "";
      World(r.1, if usable then r.0.value.value else None)
  }

  // ---- The classes ----

  class SettingsStore {
    const cfg: Config
    var table: Table
    var cache: map<string, Entry>
    var audit: seq<(string, string)>
    var registry: ProviderRegistry?

    constructor (cfg: Config, table: Table)
      ensures this.cfg == cfg && Contents() == Store(table, map[]) && audit == [] && registry == null
    {
      this.cfg, this.table, cache, audit, registry := cfg, table, map[], [], null;
    }

    function Contents(): Store
      reads this
    {
      Store(table, cache)
    }

    method ResolveKey(key: string, now: real) returns (r: Result<Resolved>)
      modifies this`cache
      ensures (r, Contents()) == Resolve(cfg, old(Contents()), key, now)
    {
      if key in cache && now < cache[key].expiry {
        return Returned(cache[key].value);
      }
      if key !in cfg.defs {
        return Raised;
      }
      var definition := cfg.defs[key];
      var resolved: Resolved;
      if key in table {
        match table[key]
        case Encrypted(sealed, _) =>
          var plain := Decrypt(cfg, sealed);
          if plain.Raised? {
            return Raised;
          }
          resolved := Resolved(Some(plain.value), FromDb, true, Some(MaskSecret(plain.value)));
        case Plain(text, isSecret) =>
          resolved := Resolved(Some(text), FromDb, isSecret, None);
      } else {
        var fromEnv := EnvValue(cfg, key);
        if fromEnv.Some? {
          resolved := Resolved(fromEnv, FromEnv, definition.isSecret,
                               if definition.isSecret then Some(MaskSecret(fromEnv.value)) else None);
        } else {
          resolved := Resolved(definition.default, FromDefault, definition.isSecret, None);
        }
      }
      cache := cache[key := Entry(now + CACHE_TTL_SECONDS, resolved)];
      r := Returned(resolved);
    }

    method SetKey(key: string, value: string) returns (ok: bool)
      modifies this`table, this`cache, this`audit, registry
      ensures ok <==> key in cfg.defs
      ensures Contents() == Set(cfg, old(Contents()), key, value)
      ensures audit == if ok then old(audit) + [(key, "set")] else old(audit)
      ensures registry != null ==>
                registry.settings == old(registry.settings)
                && World(Contents(), registry.client) ==
                     AfterWrite(cfg, old(World(Contents(), registry.client)), key, Contents())
    {
      if key !in cfg.defs {
        return false;
      }
      var row := if cfg.defs[key].isSecret then Encrypted(Encrypt(cfg, value), true) else Plain(value, false);
      table := table[key := row];
      audit := audit + [(key, "set")];
      cache := cache - {key};
      MaybeReload(key);
      ok := true;
    }

    method ClearKey(key: string) returns (ok: bool)
      modifies this`table, this`cache, this`audit, registry
      ensures ok <==> key in cfg.defs
      ensures Contents() == Clear(cfg, old(Contents()), key)
      ensures audit == if ok then old(audit) + [(key, "clear")] else old(audit)
      ensures registry != null ==>
                registry.settings == old(registry.settings)
                && World(Contents(), registry.client) ==
                     AfterWrite(cfg, old(World(Contents(), registry.client)), key, Contents())
    {
      if key !in cfg.defs {
        return false;
      }
      table := table - {key};
      audit := audit + [(key, "clear")];
      cache := cache - {key};
      MaybeReload(key);
      ok := true;
    }

    method MaybeReload(key: string)
      modifies registry
      ensures registry != null ==>
                registry.settings == old(registry.settings)
                && registry.client == if key in RELOAD_KEYS then None else old(registry.client)
    {
      if key in RELOAD_KEYS && registry != null {
        registry.Reload();
      }
    }
  }

  class ProviderRegistry {
    var settings: SettingsStore
    var client: Option<string>

    constructor (settings: SettingsStore)
      ensures this.settings == settings && client == None
    {
      this.settings, client := settings, None;
    }

    method GetBaleClient(now: real) returns (held: Option<string>)
      modifies this`client, settings`cache
      ensures World(settings.Contents(), client) ==
              GetClient(settings.cfg, old(World(settings.Contents(), client)), now)
      ensures held == client
    {
      if client.None? {
        var token := settings.ResolveKey(BOT_TOKEN, now);
        if token.Raised? || token.value.value.None? || token.value.value.value == "" {
          return None;
        }
        client := token.value.value;
      }
      held := client;
    }

    method Reload()
      modifies this`client
      ensures client == None
    {
      client := None;
    }
  }
}
