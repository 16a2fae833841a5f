/** The identity store (`UserContext`): the user catalog, the signed-in user,
    the loading flag and the `"user"` entry of `localStorage`. JSON is an
    encoder `encode` and a partial decoder `decode` (`None` where `JSON.parse`
    throws), both given to the store when it is built. */
module Identity {
  import opened Wrappers
  import opened Types
  import opened Text
  import opened Seqs
  import opened Storage
  import MockData

  /** How many demo users the provider seeds. */
  const SeededUsers := 20

  /** `u => u.email === email` */
  function HasEmail(email: string): User -> bool {
    (u: User) => u.email == email
  }

  /** `u => u.id === id` */
  function HasUserId(id: string): User -> bool {
    (u: User) => u.id == id
  }

  /** `users.some(u => u.email === email)` */
  predicate EmailTaken(users: seq<User>, email: string) {
    exists i :: 0 <= i < |users| && users[i].email == email
  }

  /** `users.find(u => u.email === email)` */
  function FindByEmail(users: seq<User>, email: string): Option<User> {
    Find(users, HasEmail(email))
  }

  /** `users.find(u => u.id === id) || null` */
  function FindUserById(users: seq<User>, id: string): Option<User> {
    Find(users, HasUserId(id))
  }

  /** The record `register` builds. */
  function NewMember(name: string, email: string, nowMs: nat, nowIso: string): (u: User)
    ensures u.id == "user-" + NatToString(nowMs) && u.name == name && u.email == email
    ensures u.role == Some("Community Member") && u.joinedDate == nowIso
    ensures u.eventsAttended == Some(0) && u.connections == Some(0)
    ensures u.bio == None && u.interests == None
  {
    User("user-" + NatToString(nowMs), name, email, Some("Community Member"), None, None, nowIso,
         Some(0), Some(0), None, None, None, None, None)
  }

  /** `u => u.id === id ? replacement : u` */
  function ReplaceIfId(id: string, replacement: User): User -> User {
    (u: User) => if u.id == id then replacement else u
  }

  /** `users.map(u => u.id === id ? replacement : u)` */
  function ReplaceById(users: seq<User>, id: string, replacement: User): seq<User> {
    Map(users, ReplaceIfId(id, replacement))
  }

  /** The restore effect: the signed-in user and the storage map it leaves. A
      missing or empty entry changes nothing; one that decodes becomes the
      signed-in user; one that does not is removed. */
  function Restored(current: Option<User>, entries: map<string, string>, decode: string -> Option<User>)
    : (Option<User>, map<string, string>)
  {
    if UserKey in entries && entries[UserKey] != "" then
      match decode(entries[UserKey])
      case Some(u) => (Some(u), entries)
      case None => (current, entries - {UserKey})
    else (current, entries)
  }

  /** The lookup by email finds nothing exactly when no user has that email;
      otherwise it returns a catalog user with that email. */
  lemma FindByEmailFacts(users: seq<User>, email: string)
    ensures FindByEmail(users, email).None? <==> !EmailTaken(users, email)
    ensures FindByEmail(users, email).Some? ==> FindByEmail(users, email).value.email == email
    ensures FindByEmail(users, email).Some? ==> FindByEmail(users, email).value in users
  {
    var r := FindByEmail(users, email);
    if r.Some? {
      var k :| FirstSatisfying(users, HasEmail(email), k) && users[k] == r.value;
      assert HasEmail(email)(users[k]);
    } else {
      forall i | 0 <= i < |users| ensures users[i].email != email {
        assert !HasEmail(email)(users[i]);
      }
    }
  }

  /** A user registered with an email nobody has yet is the one a later `login` with
      that email finds: `register(e)` then `login(e)` gives the same id. */
  lemma RegisterThenLogin(users: seq<User>, newcomer: User)
    requires !EmailTaken(users, newcomer.email)
    ensures FindByEmail(users + [newcomer], newcomer.email) == Some(newcomer)
  {
    var all := users + [newcomer];
    assert FirstSatisfying(all, HasEmail(newcomer.email), |users|) by {
      forall i | 0 <= i < |users| ensures !HasEmail(newcomer.email)(all[i]) {
        assert all[i] == users[i];
      }
    }
    FindFirst(all, HasEmail(newcomer.email), |users|);
  }

  /** After registering, the email is taken: registering it again fails. */
  lemma RegisterTakesEmail(users: seq<User>, newcomer: User)
    ensures EmailTaken(users + [newcomer], newcomer.email)
  {
    assert (users + [newcomer])[|users|] == newcomer;
  }

  /** `updateUser` rewrites exactly the catalog entries with the old id and
      keeps the others, the length and the order; an id that is not in the
      catalog leaves it as it was. */
  lemma ReplaceByIdFacts(users: seq<User>, id: string, replacement: User)
    ensures |ReplaceById(users, id, replacement)| == |users|
    ensures forall i :: 0 <= i < |users| ==>
              ReplaceById(users, id, replacement)[i] == if users[i].id == id then replacement else users[i]
    ensures (forall i :: 0 <= i < |users| ==> users[i].id != id) ==> ReplaceById(users, id, replacement) == users
  {
  }

  /** The entry `login`, `register` or `updateUser` writes restores, on the
      next start, the same signed-in user, provided JSON reads back what it
      wrote; after `logout` nothing is restored. */
  lemma RestoreRoundTrip(entries: map<string, string>, u: User, encode: User -> string, decode: string -> Option<User>)
    requires encode(u) != "" && decode(encode(u)) == Some(u)
    ensures Restored(None, entries[UserKey := encode(u)], decode) == (Some(u), entries[UserKey := encode(u)])
    ensures Restored(None, entries - {UserKey}, decode) == (None, entries - {UserKey})
  {
  }

  /** A corrupt entry is discarded: afterwards the key is gone, the signed-in
      user is unchanged, and a second restore changes nothing more. */
  lemma RestoreDiscardsCorrupt(current: Option<User>, entries: map<string, string>, decode: string -> Option<User>)
    requires UserKey in entries && entries[UserKey] != "" && decode(entries[UserKey]).None?
    ensures Restored(current, entries, decode) == (current, entries - {UserKey})
    ensures Restored(current, entries - {UserKey}, decode) == (current, entries - {UserKey})
  {
  }

  class UserStore {
    var user: Option<User>
    var users: seq<User>
    var isLoading: bool
    const storage: LocalStorage
    const encode: User -> string
    const decode: string -> Option<User>

    /** The provider's initial state, before its effects run. */
    constructor (storage: LocalStorage, encode: User -> string, decode: string -> Option<User>)
      ensures this.storage == storage && this.encode == encode && this.decode == decode
      ensures user == None && users == [] && !isLoading
    {
      this.storage := storage;
      this.encode := encode;
      this.decode := decode;
      user := None;
      users := [];
      isLoading := false;
    }

    /** The seeding effect: the catalog becomes `generateMockUsers(20)`. */
    method SeedUsers(clock: nat -> string)
      modifies this
      ensures users == MockData.GenerateMockUsers(SeededUsers, clock)
      ensures user == old(user) && isLoading == old(isLoading)
    {
      users := MockData.GenerateMockUsers(SeededUsers, clock);
    }

    /** The restore effect: reads the `"user"` entry and either signs that
        user in or discards a corrupt entry. */
    method RestoreSession()
      modifies this, storage
      ensures (user, storage.entries) == Restored(old(user), old(storage.entries), decode)
      ensures users == old(users) && isLoading == old(isLoading)
    {
      var saved := storage.GetItem(UserKey);
      if saved.Some? && saved.value != "" {
        var parsed := decode(saved.value);
        if parsed.Some? {
          user := parsed;
        } else {
          storage.RemoveItem(UserKey);
        }
      }
    }

    /** `getUserById(id)`: no side effect. */
    function GetUserById(id: string): Option<User>
      reads this
    {
      FindUserById(users, id)
    }

    /** `login(email, password)`: the first user with that exact email; the
        password is not looked at. */
    method Login(email: string, password: string, rejected: bool) returns (r: Result<User, StoreError>)
      modifies this, storage
      ensures !isLoading && users == old(users)
      ensures rejected ==> r == Err(Rejected)
      ensures !rejected && FindByEmail(old(users), email).None? ==> r == Err(UserNotFound)
      ensures r.Err? ==> user == old(user) && storage.entries == old(storage.entries)
      ensures !rejected && FindByEmail(old(users), email).Some? ==>
                r == Ok(FindByEmail(old(users), email).value) && user == Some(r.value) &&
                storage.entries == old(storage.entries)[UserKey := encode(r.value)]
    {
      isLoading := true;
      if rejected {
        r := Err(Rejected);
      } else {
        var found := FindByEmail(users, email);
        if found.None? {
          r := Err(UserNotFound);
        } else {
          user := found;
          storage.SetItem(UserKey, encode(found.value));
          r := Ok(found.value);
        }
      }
      isLoading := false;
    }

    /** `register(name, email, password)`: a duplicate email is refused;
        otherwise the new member is appended, signed in and saved. */
    method Register(name: string, email: string, password: string, nowMs: nat, nowIso: string, rejected: bool)
      returns (r: Result<User, StoreError>)
      modifies this, storage
      ensures !isLoading
      ensures rejected ==> r == Err(Rejected)
      ensures !rejected && EmailTaken(old(users), email) ==> r == Err(EmailInUse)
      ensures r.Err? ==> user == old(user) && users == old(users) && storage.entries == old(storage.entries)
      ensures !rejected && !EmailTaken(old(users), email) ==>
                r == Ok(NewMember(name, email, nowMs, nowIso)) &&
                users == old(users) + [r.value] && user == Some(r.value) &&
                storage.entries == old(storage.entries)[UserKey := encode(r.value)] &&
                FindByEmail(users, email) == Some(r.value)
    {
      isLoading := true;
      if rejected {
        r := Err(Rejected);
      } else if EmailTaken(users, email) {
        r := Err(EmailInUse);
      } else {
        var newcomer := NewMember(name, email, nowMs, nowIso);
        RegisterThenLogin(users, newcomer);
        users := users + [newcomer];
        user := Some(newcomer);
        storage.SetItem(UserKey, encode(newcomer));
        r := Ok(newcomer);
      }
      isLoading := false;
    }

    /** `logout()`: never fails on its own. */
    method Logout(rejected: bool) returns (r: Result<(), StoreError>)
      modifies this, storage
      ensures !isLoading && users == old(users)
      ensures rejected ==> r == Err(Rejected) && user == old(user) && storage.entries == old(storage.entries)
      ensures !rejected ==> r == Ok(()) && user == None && storage.entries == old(storage.entries) - {UserKey}
    {
      isLoading := true;
      if rejected {
        r := Err(Rejected);
      } else {
        user := None;
        storage.RemoveItem(UserKey);
        r := Ok(());
      }
      isLoading := false;
    }

    /** `updateUser(patch)`: merges into the signed-in user, saves it and
        rewrites the catalog entries that carry the old id. */
    method UpdateUser(patch: UserPatch, rejected: bool) returns (r: Result<User, StoreError>)
      modifies this, storage
      ensures !isLoading
      ensures rejected ==> r == Err(Rejected)
      ensures !rejected && old(user).None? ==> r == Err(NoUserLoggedIn)
      ensures r.Err? ==> user == old(user) && users == old(users) && storage.entries == old(storage.entries)
      ensures !rejected && old(user).Some? ==>
                var updated := MergeUser(old(user).value, patch);
                r == Ok(updated) && user == Some(updated) &&
                storage.entries == old(storage.entries)[UserKey := encode(updated)] &&
                users == ReplaceById(old(users), old(user).value.id, updated)
    {
      isLoading := true;
      if rejected {
        r := Err(Rejected);
      } else if user.None? {
        r := Err(NoUserLoggedIn);
      } else {
        var current := user.value;
        var updated := MergeUser(current, patch);
        user := Some(updated);
        storage.SetItem(UserKey, encode(updated));
        users := ReplaceById(users, current.id, updated);
        r := Ok(updated);
      }
      isLoading := false;
    }
  }
}
