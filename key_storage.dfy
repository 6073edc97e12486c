/**
 * `migrateStorageKey` (`src/lib/storage.ts`): a value saved in the browser's storage
 * under an old key is moved to a new key, re-serialised on the way.
 */
module KeyStorage {
  import opened Wrappers

  /** The `getItem` / `setItem` / `removeItem` part of the browser's `Storage`. */
  class Storage {
    var items: map<string, string>

    constructor (items: map<string, string>)
      ensures this.items == items
    {
      this.items := items;
    }

    /** `getItem(key)`: `None` stands for `null`. */
    function GetItem(key: string): (v: Option<string>)
      reads this
      ensures v.Some? <==> key in items
      ensures v.Some? ==> v.value == items[key]
    {
      Get(items, key)
    }

    method SetItem(key: string, value: string)
      modifies this
      ensures items == old(items)[key := value]
    {
      items := items[key := value];
    }

    method RemoveItem(key: string)
      modifies this
      ensures items == old(items) - {key}
    {
      items := items - {key};
    }
  }

  function Get(items: map<string, string>, key: string): Option<string> {
    if key in items then Some(items[key]) else None
  }

  /** `storage.getItem(newKey) ?? storage.getItem(oldKey)`: the old key is read only when
      the new key is absent, not when it holds the empty string. */
  function Raw(items: map<string, string>, oldKey: string, newKey: string): (raw: Option<string>)
    ensures newKey in items ==> raw == Some(items[newKey])
    ensures newKey !in items ==> raw == (if oldKey in items then Some(items[oldKey]) else None)
  {
    OrElse(Get(items, newKey), Get(items, oldKey))
  }

  /** What `migrateStorageKey` returns and the storage it leaves, given the storage it
      finds. */
  function Migrated<T>(items: map<string, string>, oldKey: string, newKey: string,
                       parse: string -> T, serialize: T -> string): (r: (Option<T>, map<string, string>))
    ensures var raw := Raw(items, oldKey, newKey);
      r.0.None? <==> raw.None? || raw.value == []
    ensures r.0.None? ==> r.1 == items
    ensures r.0.Some? ==>
      && r.0.value == parse(Raw(items, oldKey, newKey).value)
      && newKey in r.1 && r.1[newKey] == serialize(r.0.value)
      && (oldKey != newKey ==> oldKey !in r.1)
    ensures forall k | k != oldKey && k != newKey ::
      (k in r.1 <==> k in items) && (k in items ==> r.1[k] == items[k])
  {
    var raw := Raw(items, oldKey, newKey);
    if raw.None? || raw.value == [] then (None, items)
    else
      var value := parse(raw.value);
      var moved := items[newKey := serialize(value)];
      (Some(value), if oldKey != newKey then moved - {oldKey} else moved)
  }

  /** `migrateStorageKey({ storage, oldKey, newKey, parse, serialize })`. */
  method MigrateStorageKey<T>(storage: Storage, oldKey: string, newKey: string,
                              parse: string -> T, serialize: T -> string) returns (value: Option<T>)
    modifies storage
    ensures (value, storage.items) == Migrated(old(storage.items), oldKey, newKey, parse, serialize)
  {
    var raw := storage.GetItem(newKey);
    if raw.None? {
      raw := storage.GetItem(oldKey);
    }
    if raw.None? || raw.value == [] {
      return None;
    }
    var parsed := parse(raw.value);
    storage.SetItem(newKey, serialize(parsed));
    if oldKey != newKey {
      storage.RemoveItem(oldKey);
    }
    value := Some(parsed);
  }

  /** When serialising what was parsed gives the text back, a second migration leaves the
      storage as the first one left it, and returns the same value. */
  lemma MigrateTwice<T>(items: map<string, string>, oldKey: string, newKey: string,
                        parse: string -> T, serialize: T -> string)
    requires forall v :: parse(serialize(v)) == v
    ensures var (v1, s1) := Migrated(items, oldKey, newKey, parse, serialize);
      var (v2, s2) := Migrated(s1, oldKey, newKey, parse, serialize);
      && s2 == s1
      && (v1.Some? && serialize(v1.value) != [] ==> v2 == v1)
  {
    var (v1, s1) := Migrated(items, oldKey, newKey, parse, serialize);
    if v1.Some? {
      var (v2, s2) := Migrated(s1, oldKey, newKey, parse, serialize);
      assert Raw(s1, oldKey, newKey) == Some(serialize(v1.value));
      if serialize(v1.value) != [] {
        assert v2 == Some(parse(serialize(v1.value)));
        assert s2.Keys == s1.Keys;
      }
    }
  }

  /** A value under the new key wins; the old key's value is dropped unread. */
  lemma NewKeyWins<T>(items: map<string, string>, oldKey: string, newKey: string,
                      parse: string -> T, serialize: T -> string)
    requires newKey in items && items[newKey] != [] && oldKey in items && oldKey != newKey
    ensures var (v, s) := Migrated(items, oldKey, newKey, parse, serialize);
      v == Some(parse(items[newKey])) && oldKey !in s
  {
  }

  /** An empty string under the new key stops the fallback: the old key's value stays
      where it is and nothing is returned. */
  lemma EmptyNewKeyBlocksFallback<T>(items: map<string, string>, oldKey: string, newKey: string,
                                     parse: string -> T, serialize: T -> string)
    requires newKey in items && items[newKey] == []
    ensures Migrated(items, oldKey, newKey, parse, serialize) == (None, items)
  {
  }

  const OLD_SETTINGS_KEY := "ethfolio.settings"
  const NEW_SETTINGS_KEY := "retrodesk.settings"

  /** The saved settings move from the old key to the new one, and the old key is gone. */
  lemma SettingsMove<T>(text: string, parse: string -> T, serialize: T -> string)
    requires text != [] && serialize(parse(text)) == text
    ensures var (v, s) := Migrated(map[OLD_SETTINGS_KEY := text], OLD_SETTINGS_KEY, NEW_SETTINGS_KEY, parse, serialize);
      v == Some(parse(text)) && s == map[NEW_SETTINGS_KEY := text]
  {
    var items := map[OLD_SETTINGS_KEY := text];
    assert OLD_SETTINGS_KEY != NEW_SETTINGS_KEY by {
      assert OLD_SETTINGS_KEY[0] != NEW_SETTINGS_KEY[0];
    }
    var (v, s) := Migrated(items, OLD_SETTINGS_KEY, NEW_SETTINGS_KEY, parse, serialize);
    assert s.Keys == {NEW_SETTINGS_KEY};
  }
}
