/** Resolution of a party by PIX key: return the stored account, or provision a placeholder one. */
module UserServices {
  import opened Wrappers
  import opened Users

  /** The sentinel stored as the tax id of a placeholder account whose key is not a CPF. */
  const UnknownCpf: string := "CPF não localizado"
  /** The sentinel stored as the name of every placeholder account. */
  const UnknownName: string := "Usuário não localizado"

  /** The directory's key lookup: the first stored account whose key equals `key`.
      A null key matches nothing, as an `=` comparison with null never holds in the query. */
  function FindByPixKey(users: seq<User>, key: Option<string>): (r: Option<User>)
    ensures r.Some? ==> key.Some? && r.value in users && r.value.pixKey == key
    ensures r.None? ==> key.None? || forall i :: 0 <= i < |users| ==> users[i].pixKey != key
  {
    if key.None? || |users| == 0 then None
    else if users[0].pixKey == key then Some(users[0])
    else FindByPixKey(users[1..], key)
  }

  /** Appending an account whose key is new makes the lookup of that key find exactly it. */
  lemma {:induction false} FindAfterAppend(users: seq<User>, u: User)
    requires u.pixKey.Some? && FindByPixKey(users, u.pixKey).None?
    ensures FindByPixKey(users + [u], u.pixKey) == Some(u)
  {
    if |users| > 0 {
      assert (users + [u])[1..] == users[1..] + [u];
      FindAfterAppend(users[1..], u);
    }
  }

  /** Appending an account does not change what an existing non-null key resolves to. */
  lemma {:induction false} FindStableUnderAppend(users: seq<User>, u: User, key: Option<string>)
    requires FindByPixKey(users, key).Some?
    ensures FindByPixKey(users + [u], key) == FindByPixKey(users, key)
  {
    if users[0].pixKey != key {
      assert (users + [u])[1..] == users[1..] + [u];
      FindStableUnderAppend(users[1..], u, key);
    }
  }

  /** The placeholder account built for an unknown key (not yet persisted: no id). */
  function GetNewUser(stub: User): (u: User)
    ensures u.id.None?
    ensures u.name == Some(UnknownName)
    ensures u.pixKey == stub.pixKey && u.pixKeyType == stub.pixKeyType
    ensures stub.pixKeyType == Cpf ==> u.cpf == stub.pixKey
    ensures stub.pixKeyType != Cpf ==> u.cpf == Some(UnknownCpf)
  {
    User(None, if stub.pixKeyType == Cpf then stub.pixKey else Some(UnknownCpf), Some(UnknownName),
         stub.pixKeyType, stub.pixKey)
  }

  /** A directory as the identity column leaves it: the account at position i has id i + 1,
      and no two accounts share a non-null key. */
  ghost predicate WellFormed(users: seq<User>)
  {
    && (forall i :: 0 <= i < |users| ==> users[i].id == Some(i + 1))
    && (forall i, j :: 0 <= i < j < |users| && users[i].pixKey.Some? ==> users[i].pixKey != users[j].pixKey)
  }

  /** The directory after a resolution, and the account the resolution returned. */
  datatype Resolution = Resolution(users: seq<User>, user: User)

  /** The specification of `getOrCreateUser` on a directory: a hit returns the stored account and
      saves nothing; a miss saves the placeholder account under the next id and returns it. */
  function GetOrCreate(users: seq<User>, stub: User): (r: Resolution)
    ensures r.user.pixKey == stub.pixKey
    ensures r.user in r.users
    ensures users <= r.users && |r.users| <= |users| + 1
    ensures WellFormed(users) ==> WellFormed(r.users)
    ensures stub.pixKey.Some? ==> FindByPixKey(r.users, stub.pixKey) == Some(r.user)
  {
    match FindByPixKey(users, stub.pixKey)
    case Some(u) => Resolution(users, u)
    case None =>
      var u := GetNewUser(stub).(id := Some(|users| + 1));
      assert u.pixKey.Some? ==> FindByPixKey(users + [u], u.pixKey) == Some(u) by {
        if u.pixKey.Some? { FindAfterAppend(users, u); }
      }
      Resolution(users + [u], u)
  }

  /** A stored key resolves to the stored account, and nothing is saved. */
  lemma ResolveHit(users: seq<User>, stub: User, u: User)
    requires FindByPixKey(users, stub.pixKey) == Some(u)
    ensures GetOrCreate(users, stub) == Resolution(users, u)
  {
  }

  /** An unknown key saves exactly one new account, built from the stub's key and type with the
      sentinel name and tax id, under the next id; the stub's other fields are ignored. */
  lemma ResolveMiss(users: seq<User>, stub: User)
    requires FindByPixKey(users, stub.pixKey).None?
    ensures var r := GetOrCreate(users, stub);
      && r.users == users + [r.user]
      && r.user.id == Some(|users| + 1)
      && r.user.name == Some(UnknownName)
      && r.user.pixKey == stub.pixKey
      && r.user.pixKeyType == stub.pixKeyType
      && r.user.cpf == (if stub.pixKeyType == Cpf then stub.pixKey else Some(UnknownCpf))
  {
  }

  /** Resolving a non-null key a second time, with any stub carrying that key, returns the same
      account and saves nothing more. */
  lemma ResolveIdempotent(users: seq<User>, stub: User, again: User)
    requires stub.pixKey.Some? && again.pixKey == stub.pixKey
    ensures var first := GetOrCreate(users, stub);
      GetOrCreate(first.users, again) == first
  {
  }

  /** A null key never resolves to a stored account, so every resolution of it saves a new one. */
  lemma NullKeyAlwaysCreates(users: seq<User>, stub: User)
    requires stub.pixKey.None?
    ensures |GetOrCreate(users, stub).users| == |users| + 1
  {
  }

  /** The user service over its directory. */
  class UserService {
    /** The stored accounts, in insertion order. */
    var users: seq<User>

    ghost predicate Valid()
      reads this
    {
      WellFormed(users)
    }

    constructor ()
      ensures Valid() && users == []
    {
      users := [];
    }

    /** Returns the account stored under the stub's key, or saves and returns a placeholder. */
    method GetOrCreateUser(stub: User) returns (u: User)
      requires Valid()
      modifies this
      ensures Valid()
      ensures Resolution(users, u) == GetOrCreate(old(users), stub)
    {
      var found := FindByPixKey(users, stub.pixKey);
      if found.Some? {
        return found.value;
      }
      // the repository's save assigns the next identity value
      u := GetNewUser(stub).(id := Some(|users| + 1));
      users := users + [u];
    }
  }
}
