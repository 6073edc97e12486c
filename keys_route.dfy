/**
 * `POST /api/settings/keys` (`src/app/api/settings/keys/route.ts`): the user stores a
 * Moralis key and a list of named API keys, encrypted, in their settings row.
 */
module KeysRoute {
  import opened Wrappers
  import opened Store
  import Text
  import Json
  import Api

  const NO_USER := "User not found. Please sign in again."
  const NO_SECRET := "Missing encryption secret for API keys."
  const FAILED := "Failed to save API keys."

  /** An entry as `sanitizeKeys` leaves it: trimmed, with a name and a value. */
  predicate Clean(e: ApiKeyEntry) {
    e.name != [] && e.value != [] && Text.Trim(e.name) == e.name && Text.Trim(e.value) == e.value
  }

  /** One entry of the list: `name` and `value` stringified and trimmed. Entries that are
      not objects read as objects without fields. */
  function EntryOf(entry: Json.Members): (e: ApiKeyEntry)
    ensures e.name != [] && e.value != [] ==> Clean(e)
  {
    var name := Api.FieldText(entry, "name");
    var value := Api.FieldText(entry, "value");
    Text.TrimIdempotent(name);
    Text.TrimIdempotent(value);
    ApiKeyEntry(Text.Trim(name), Text.Trim(value))
  }

  /** The entry after the `.map`, if the `.filter` keeps it. */
  function Kept(entry: Json.Members): (k: seq<ApiKeyEntry>)
    ensures k == [] || (|k| == 1 && Clean(k[0]))
  {
    var e := EntryOf(entry);
    if e.name != [] && e.value != [] then [e] else []
  }

  /** The `.map(...).filter(...)` of `sanitizeKeys` over an array's entries. */
  function Sanitize(entries: seq<Json.Members>): (keys: seq<ApiKeyEntry>)
    ensures |keys| <= |entries|
  {
    if entries == [] then [] else Kept(entries[0]) + Sanitize(entries[1..])
  }

  /** Every entry `sanitizeKeys` returns is trimmed and has a name and a value. */
  lemma {:induction false} SanitizeClean(entries: seq<Json.Members>)
    ensures forall i | 0 <= i < |Sanitize(entries)| :: Clean(Sanitize(entries)[i])
  {
    if entries != [] {
      SanitizeClean(entries[1..]);
      var head := Kept(entries[0]);
      var tail := Sanitize(entries[1..]);
      assert Sanitize(entries) == head + tail;
      CleanConcat(head, tail);
    }
  }

  lemma CleanConcat(a: seq<ApiKeyEntry>, b: seq<ApiKeyEntry>)
    requires forall i | 0 <= i < |a| :: Clean(a[i])
    requires forall i | 0 <= i < |b| :: Clean(b[i])
    ensures forall i | 0 <= i < |a + b| :: Clean((a + b)[i])
  {
    forall i | 0 <= i < |a + b|
      ensures Clean((a + b)[i])
    {
      if i < |a| {
        assert (a + b)[i] == a[i];
      } else {
        assert (a + b)[i] == b[i - |a|];
      }
    }
  }

  /** `sanitizeKeys(raw)`: `raw` is the array's entries, `None` when it is not an array. */
  function SanitizeKeys(raw: Option<seq<Json.Members>>): (keys: seq<ApiKeyEntry>)
    ensures raw.None? ==> keys == []
    ensures raw.Some? ==> keys == Sanitize(raw.value)
  {
    if raw.None? then [] else Sanitize(raw.value)
  }

  lemma SanitizeCons(entry: Json.Members, rest: seq<Json.Members>)
    ensures Sanitize([entry] + rest) == Kept(entry) + Sanitize(rest)
  {
    assert ([entry] + rest)[1..] == rest;
  }

  /** Sanitising works entry by entry, so it keeps the input order. */
  lemma {:induction false} SanitizeAppend(a: seq<Json.Members>, b: seq<Json.Members>)
    ensures Sanitize(a + b) == Sanitize(a) + Sanitize(b)
  {
    if a == [] {
      assert a + b == b;
    } else {
      var head, tail := a[0], a[1..];
      assert a == [head] + tail;
      assert a + b == [head] + (tail + b);
      SanitizeAppend(tail, b);
      SanitizeCons(head, tail + b);
      SanitizeCons(head, tail);
      ConcatAssociative(Kept(head), Sanitize(tail), Sanitize(b));
    }
  }

  lemma HeadTail<T>(s: seq<T>)
    requires s != []
    ensures [s[0]] + s[1..] == s
  {
    assert ([s[0]] + s[1..])[0] == s[0];
  }

  lemma ConcatAssociative<T>(x: seq<T>, y: seq<T>, z: seq<T>)
    ensures x + (y + z) == (x + y) + z
  {
  }

  /** The members `{ name, value }` the settings form sends for an entry. */
  function EntryMembers(e: ApiKeyEntry): Json.Members {
    [("name", Json.JString(e.name)), ("value", Json.JString(e.value))]
  }

  lemma EntryMembersLookup(name: string, value: string)
    ensures var m := [("name", Json.JString(name)), ("value", Json.JString(value))];
      Api.FieldText(m, "name") == name && Api.FieldText(m, "value") == value
  {
    var m := [("name", Json.JString(name)), ("value", Json.JString(value))];
    assert "value" != "name" by { assert "value"[0] != "name"[0]; }
    assert m[..1] == [("name", Json.JString(name))];
    assert Json.Lookup(m, "name") == Some(Json.JString(name));
    assert Json.Lookup(m, "value") == Some(Json.JString(value));
  }

  /** A clean entry, sent back, is kept as it is. */
  lemma EntryMembersRead(e: ApiKeyEntry)
    requires Clean(e)
    ensures Kept(EntryMembers(e)) == [e]
  {
    EntryMembersLookup(e.name, e.value);
  }

  /** The list the settings form sends back for stored entries. */
  function Resend(keys: seq<ApiKeyEntry>): (entries: seq<Json.Members>)
    ensures |entries| == |keys|
  {
    if keys == [] then [] else [EntryMembers(keys[0])] + Resend(keys[1..])
  }

  /** One clean entry in front of the resent list is kept in front of what the rest gives. */
  lemma SanitizeResendCons(first: ApiKeyEntry, rest: seq<ApiKeyEntry>)
    requires Clean(first)
    ensures Sanitize(Resend([first] + rest)) == [first] + Sanitize(Resend(rest))
  {
    assert ([first] + rest)[1..] == rest;
    assert Resend([first] + rest) == [EntryMembers(first)] + Resend(rest);
    SanitizeCons(EntryMembers(first), Resend(rest));
    EntryMembersRead(first);
  }

  /** Sending back what was kept keeps all of it: sanitising is idempotent. */
  lemma {:induction false} SanitizeIdempotent(keys: seq<ApiKeyEntry>)
    requires forall i | 0 <= i < |keys| :: Clean(keys[i])
    ensures Sanitize(Resend(keys)) == keys
  {
    if keys != [] {
      var first, rest := keys[0], keys[1..];
      assert forall i | 0 <= i < |rest| :: Clean(rest[i]) by {
        forall i | 0 <= i < |rest|
          ensures Clean(rest[i])
        {
          assert rest[i] == keys[i + 1];
        }
      }
      SanitizeIdempotent(rest);
      HeadTail(keys);
      SanitizeResendCons(first, rest);
    }
  }

  /** An entry with a blank name or value is dropped. */
  lemma BlankEntryDropped(name: string, value: string)
    requires Text.Trim(name) == [] || Text.Trim(value) == []
    ensures Sanitize([[("name", Json.JString(name)), ("value", Json.JString(value))]]) == []
  {
    var m := [("name", Json.JString(name)), ("value", Json.JString(value))];
    EntryMembersLookup(name, value);
    assert Kept(m) == [];
    var rest: seq<Json.Members> := [];
    assert [m][1..] == rest;
  }

  /** Lines 44-57: encrypt the Moralis key (when there is one) and each value. The
      cipher is `None` when no valid secret is configured, so `encryptSecret` throws;
      it is never called when there is nothing to encrypt. */
  function Encrypted(cipher: Option<string -> string>, moralis: string, keys: seq<ApiKeyEntry>)
    : (r: Option<(Option<string>, seq<ApiKeyEntry>)>)
    ensures r.None? <==> cipher.None? && (moralis != [] || keys != [])
    ensures r.Some? ==>
      && (r.value.0.None? <==> moralis == [])
      && |r.value.1| == |keys|
      && (forall i | 0 <= i < |keys| :: r.value.1[i].name == keys[i].name)
      && (cipher.Some? ==> forall i | 0 <= i < |keys| :: r.value.1[i].value == cipher.value(keys[i].value))
      && (cipher.Some? && moralis != [] ==> r.value.0 == Some(cipher.value(moralis)))
  {
    if moralis == [] && keys == [] then Some((None, []))
    else if cipher.None? then None
    else
      var encrypt := cipher.value;
      Some((if moralis != [] then Some(encrypt(moralis)) else None,
            seq(|keys|, i requires 0 <= i < |keys| => ApiKeyEntry(keys[i].name, encrypt(keys[i].value)))))
  }

  /** Lines 59-70: `upsert` of the settings row; an empty key list is stored as JSON
      null. A new row has no Etherscan key; an existing one keeps it. */
  function Upsert(settings: map<string, StoredSettings>, userId: string, moralis: Option<string>,
                  keys: seq<ApiKeyEntry>): (s: map<string, StoredSettings>)
    ensures s.Keys == settings.Keys + {userId}
    ensures forall u | u in settings && u != userId :: s[u] == settings[u]
    ensures s[userId].moralisApiKey == moralis
    ensures s[userId].apiKeys == (if keys == [] then None else Some(keys))
    ensures s[userId].etherscanApiKey == (if userId in settings then settings[userId].etherscanApiKey else None)
  {
    var stored := if keys == [] then None else Some(keys);
    if userId in settings then
      settings[userId := settings[userId].(moralisApiKey := moralis, apiKeys := stored)]
    else settings[userId := StoredSettings(None, moralis, stored)]
  }

  /** `POST(request)`. `body` is `None` when the body is not JSON; `apiKeysField` is
      `body.apiKeys`, as the list of its entries when it is an array; `dbError` is the
      message every query throws when the database fails. */
  method Post(db: Database, sessionUserId: Option<string>, body: Option<Json.Members>,
              apiKeysField: Option<seq<Json.Members>>, cipher: Option<string -> string>,
              dbError: Option<string>) returns (r: Api.Reply)
    modifies db`settings
    ensures !Api.SignedIn(sessionUserId) ==> r == Api.Error(401, Api.UNAUTHORIZED)
    ensures Api.SignedIn(sessionUserId) && body.None? ==> r == Api.Error(500, FAILED)
    ensures Api.SignedIn(sessionUserId) && body.Some? && dbError.Some? ==> r == Api.Caught(dbError.value, FAILED)
    ensures Api.SignedIn(sessionUserId) && body.Some? && dbError.None? && sessionUserId.value !in db.users ==>
      r == Api.Error(401, NO_USER)
    ensures !r.Success? ==> db.settings == old(db.settings)
    ensures r.Success? ==>
      var moralis := Text.Trim(Api.FieldText(body.value, "moralisApiKey"));
      var encrypted := Encrypted(cipher, moralis, SanitizeKeys(apiKeysField));
      && Api.SignedIn(sessionUserId) && dbError.None? && sessionUserId.value in db.users
      && encrypted.Some?
      && db.settings == Upsert(old(db.settings), sessionUserId.value, encrypted.value.0, encrypted.value.1)
    ensures Api.SignedIn(sessionUserId) && body.Some? && dbError.None? && sessionUserId.value in db.users ==>
      var moralis := Text.Trim(Api.FieldText(body.value, "moralisApiKey"));
      (r.Success? <==> Encrypted(cipher, moralis, SanitizeKeys(apiKeysField)).Some?)
      && (!r.Success? ==> r == Api.Error(500, NO_SECRET))
  {
    if !Api.SignedIn(sessionUserId) {
      return Api.Error(401, Api.UNAUTHORIZED);
    }
    if body.None? {
      return Api.Error(500, FAILED);
    }
    var userId := sessionUserId.value;
    var moralisApiKey := Text.Trim(Api.FieldText(body.value, "moralisApiKey"));
    var apiKeys := SanitizeKeys(apiKeysField);
    if dbError.Some? {
      return Api.Caught(dbError.value, FAILED);
    }
    if userId !in db.users {
      return Api.Error(401, NO_USER);
    }
    match Encrypted(cipher, moralisApiKey, apiKeys)
    case None =>
      r := Api.Error(500, NO_SECRET);
    case Some((encryptedMoralis, encryptedKeys)) =>
      db.settings := Upsert(db.settings, userId, encryptedMoralis, encryptedKeys);
      r := Api.Success;
  }

  /** Clearing both fields needs no secret: the row is stored with nulls. */
  lemma ClearingNeedsNoSecret(settings: map<string, StoredSettings>, userId: string)
    ensures Encrypted(None, [], []) == Some((None, []))
    ensures var s := Upsert(settings, userId, None, []);
      s[userId].moralisApiKey.None? && s[userId].apiKeys.None?
  {
  }
}
