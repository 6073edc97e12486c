/**
 * `POST /api/wallet` (`src/app/api/wallet/route.ts`): the signed-in user links their
 * Ethereum address. Addresses are unique across users and a user has one wallet.
 */
module WalletRoute {
  import opened Wrappers
  import opened Store
  import Text
  import Json
  import Api

  const INVALID := "Invalid address."
  const NO_USER := "User not found. Please sign in again."
  const TAKEN := "Address is already linked to another user."
  const FAILED := "Wallet save failed."

  /** `normalizeAddress`: trimmed and lower-cased. */
  function NormalizeAddress(address: string): (a: string)
    ensures |a| <= |address|
    ensures forall i | 0 <= i < |a| :: !Text.IsAsciiUpper(a[i])
  {
    Text.ToLower(Text.Trim(address))
  }

  predicate IsLowerHex(c: char) {
    ('0' <= c <= '9') || ('a' <= c <= 'f')
  }

  /** `/^0x[a-f0-9]{40}$/`. */
  predicate IsValidAddress(a: string) {
    |a| == 42 && a[0] == '0' && a[1] == 'x' && forall i | 2 <= i < 42 :: IsLowerHex(a[i])
  }

  predicate IsHexAnyCase(c: char) {
    IsLowerHex(c) || ('A' <= c <= 'F')
  }

  /** What users may type: `0x` or `0X` and 40 hex digits in either case. */
  predicate IsAddressAnyCase(t: string) {
    |t| == 42 && t[0] == '0' && (t[1] == 'x' || t[1] == 'X') && forall i | 2 <= i < 42 :: IsHexAnyCase(t[i])
  }

  /** An address is accepted exactly when its trimmed text is a hex address in any case. */
  lemma AcceptedIffHexAddress(s: string)
    ensures IsValidAddress(NormalizeAddress(s)) <==> IsAddressAnyCase(Text.Trim(s))
  {
    var t := Text.Trim(s);
    var a := NormalizeAddress(s);
    if IsAddressAnyCase(t) {
      forall i | 2 <= i < 42
        ensures IsLowerHex(a[i])
      {
        assert IsHexAnyCase(t[i]);
      }
    }
    if IsValidAddress(a) {
      forall i | 2 <= i < 42
        ensures IsHexAnyCase(t[i])
      {
        assert a[i] == Text.LowerChar(t[i]);
      }
      assert a[1] == Text.LowerChar(t[1]);
    }
  }

  /** A valid address is already normal. */
  lemma ValidIsNormal(a: string)
    requires IsValidAddress(a)
    ensures NormalizeAddress(a) == a
  {
    assert !Text.IsJsWhitespace(a[0]) && !Text.IsJsWhitespace(a[41]) by {
      assert IsLowerHex(a[41]);
    }
    Text.TrimUnchanged(a);
    forall i | 0 <= i < |a|
      ensures Text.LowerChar(a[i]) == a[i]
    {
      if i >= 2 {
        assert IsLowerHex(a[i]);
      }
    }
  }

  /** Normalising twice is normalising once. */
  lemma NormalizeIdempotent(s: string)
    ensures NormalizeAddress(NormalizeAddress(s)) == NormalizeAddress(s)
  {
    Text.ToLowerTrimIdempotent(s);
  }

  /** The unique index on `Wallet.address`. */
  predicate AddressesUnique(w: map<string, Wallet>) {
    forall a, b | a in w && b in w && a != b :: w[a].address != w[b].address
  }

  /** One wallet per user. */
  predicate OneWalletPerUser(w: map<string, Wallet>) {
    forall a, b | a in w && b in w && a != b :: w[a].userId != w[b].userId
  }

  predicate WalletsValid(w: map<string, Wallet>) {
    AddressesUnique(w) && OneWalletPerUser(w)
  }

  /** Lines 39-40: the address belongs to a wallet of a different user. */
  predicate TakenByOther(w: map<string, Wallet>, address: string, userId: string) {
    exists id | id in w :: w[id].address == address && w[id].userId != userId
  }

  /** Lines 47-60: the user's wallet gets the address, or a wallet with the id `newId`
      is created for it. */
  ghost function Saved(w: map<string, Wallet>, userId: string, address: string, newId: string): map<string, Wallet> {
    if exists id | id in w :: w[id].userId == userId then
      var id :| id in w && w[id].userId == userId;
      w[id := Wallet(userId, address)]
    else w[newId := Wallet(userId, address)]
  }

  /** The address linked to the user, if any. */
  ghost predicate Linked(w: map<string, Wallet>, userId: string, address: string) {
    exists id | id in w :: w[id] == Wallet(userId, address)
  }

  /** Saving keeps the table valid, links the address to the user, never gives the user a
      second wallet, and leaves every other user's wallet as it was. */
  lemma SavedValid(w: map<string, Wallet>, userId: string, address: string, newId: string)
    requires WalletsValid(w) && !TakenByOther(w, address, userId) && newId !in w
    ensures var w' := Saved(w, userId, address, newId);
      && WalletsValid(w')
      && Linked(w', userId, address)
      && (forall id | id in w' && w'[id].userId == userId :: w'[id] == Wallet(userId, address))
      && (forall id | id in w && w[id].userId != userId :: id in w' && w'[id] == w[id])
      && (forall id | id in w' && id !in w :: id == newId)
  {
    var w' := Saved(w, userId, address, newId);
    var target := if exists id | id in w :: w[id].userId == userId
      then var id :| id in w && w[id].userId == userId; id
      else newId;
    assert w' == w[target := Wallet(userId, address)];
    assert Linked(w', userId, address) by {
      assert w'[target] == Wallet(userId, address);
    }
    forall a, b | a in w' && b in w' && a != b
      ensures w'[a].address != w'[b].address && w'[a].userId != w'[b].userId
    {
      if a == target {
        assert w[b].userId != userId;
      } else if b == target {
        assert w[a].userId != userId;
      }
    }
  }

  /** Sending the same address again changes nothing. */
  lemma SavedIdempotent(w: map<string, Wallet>, userId: string, address: string, newId: string, newId2: string)
    requires WalletsValid(w) && !TakenByOther(w, address, userId) && newId !in w
    ensures Saved(Saved(w, userId, address, newId), userId, address, newId2) == Saved(w, userId, address, newId)
  {
    SavedValid(w, userId, address, newId);
    var w' := Saved(w, userId, address, newId);
    var id :| id in w' && w'[id] == Wallet(userId, address);
    assert exists i | i in w' :: w'[i].userId == userId;
    var id2 :| id2 in w' && w'[id2].userId == userId;
    assert id2 == id;
    assert w'[id := Wallet(userId, address)] == w';
  }

  /** `POST(request)`. `body` is `None` when the body is not JSON; `dbError` is the
      message every query throws when the database fails. */
  method Post(db: Database, sessionUserId: Option<string>, body: Option<Json.Members>,
              dbError: Option<string>) returns (r: Api.Reply)
    modifies db`wallets
    requires WalletsValid(db.wallets)
    ensures WalletsValid(db.wallets)
    ensures !Api.SignedIn(sessionUserId) ==> r == Api.Error(401, Api.UNAUTHORIZED)
    ensures Api.SignedIn(sessionUserId) && body.None? ==> r == Api.Error(500, FAILED)
    ensures Api.SignedIn(sessionUserId) && body.Some? && !IsValidAddress(AddressIn(body.value)) ==>
      r == Api.Error(400, INVALID)
    ensures !r.Success? ==> db.wallets == old(db.wallets)
    // a failing query is reported through the shared catch; a session whose user is gone is refused
    ensures Api.SignedIn(sessionUserId) && body.Some? && IsValidAddress(AddressIn(body.value)) && dbError.Some? ==>
      r == Api.Caught(dbError.value, FAILED)
    ensures Api.SignedIn(sessionUserId) && body.Some? && IsValidAddress(AddressIn(body.value)) && dbError.None? ==>
      (r == Api.Error(401, NO_USER) <==> sessionUserId.value !in db.users)
    ensures r == Api.Error(409, TAKEN) <==>
      && Api.SignedIn(sessionUserId) && body.Some? && IsValidAddress(AddressIn(body.value))
      && dbError.None? && sessionUserId.value in db.users
      && TakenByOther(old(db.wallets), AddressIn(body.value), sessionUserId.value)
    ensures r.Success? <==>
      && Api.SignedIn(sessionUserId) && body.Some? && IsValidAddress(AddressIn(body.value))
      && dbError.None? && sessionUserId.value in db.users
      && !TakenByOther(old(db.wallets), AddressIn(body.value), sessionUserId.value)
    ensures r.Success? ==>
      exists newId | newId !in old(db.wallets) ::
        db.wallets == Saved(old(db.wallets), sessionUserId.value, AddressIn(body.value), newId)
  {
    if !Api.SignedIn(sessionUserId) {
      return Api.Error(401, Api.UNAUTHORIZED);
    }
    if body.None? {
      return Api.Error(500, FAILED);
    }
    var userId := sessionUserId.value;
    var address := AddressIn(body.value);
    if !IsValidAddress(address) {
      return Api.Error(400, INVALID);
    }
    if dbError.Some? {
      r := Api.Caught(dbError.value, FAILED);
      assert r != Api.Error(409, TAKEN);
      return;
    }
    if userId !in db.users {
      return Api.Error(401, NO_USER);
    }
    if exists id | id in db.wallets :: db.wallets[id].address == address && db.wallets[id].userId != userId {
      return Api.Error(409, TAKEN);
    }
    Link(db, userId, address);
    r := Api.Success;
  }

  /** Lines 47-60: update the user's wallet, or create one. */
  method Link(db: Database, userId: string, address: string)
    modifies db`wallets
    requires WalletsValid(db.wallets) && !TakenByOther(db.wallets, address, userId)
    ensures WalletsValid(db.wallets)
    ensures exists newId | newId !in old(db.wallets) :: db.wallets == Saved(old(db.wallets), userId, address, newId)
  {
    var newId := FreshId(db.wallets.Keys);
    ghost var w := db.wallets;
    if exists id | id in db.wallets :: db.wallets[id].userId == userId {
      var id :| id in db.wallets && db.wallets[id].userId == userId;
      SavedExisting(w, userId, address, newId, id);
      db.wallets := db.wallets[id := Wallet(userId, address)];
    } else {
      db.wallets := db.wallets[newId := Wallet(userId, address)];
    }
    SavedValid(w, userId, address, newId);
  }

  /** `normalizeAddress(String(body?.address || ""))`. */
  function AddressIn(body: Json.Members): (a: string)
    ensures forall i | 0 <= i < |a| :: !Text.IsAsciiUpper(a[i])
  {
    NormalizeAddress(Api.FieldText(body, "address"))
  }

  /** With one wallet per user, the wallet `findFirst` picks is the one `Saved` updates. */
  lemma SavedExisting(w: map<string, Wallet>, userId: string, address: string, newId: string, id: string)
    requires OneWalletPerUser(w) && id in w && w[id].userId == userId
    ensures Saved(w, userId, address, newId) == w[id := Wallet(userId, address)]
  {
  }
}
