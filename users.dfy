/** Accounts addressed by a PIX key. */
module Users {
  import opened Wrappers

  /** The PIX key types recognised by the system. */
  datatype PixType = Cpf | Email | Phone | Random

  /** An account. `id` is absent until the account is persisted; `cpf`, `name` and
      `pixKey` are nullable strings, as in the entity. */
  datatype User = User(
    id: Option<nat>,
    cpf: Option<string>,
    name: Option<string>,
    pixKeyType: PixType,
    pixKey: Option<string>)
  {
    /** The summary of the account placed in a transfer response. */
    function ToResponse(): (r: UserResponse)
      ensures r.id == id && r.cpf == cpf && r.name == name
      ensures r.pixKey == pixKey && r.pixKeyType == pixKeyType
    {
      UserResponse(id, cpf, name, pixKey, pixKeyType)
    }
  }

  /** The account summary returned by the API. */
  datatype UserResponse = UserResponse(
    id: Option<nat>,
    cpf: Option<string>,
    name: Option<string>,
    pixKey: Option<string>,
    pixKeyType: PixType)

  /** What a request carries for a party: only the key and its type. */
  function Stub(pixKey: Option<string>, pixKeyType: PixType): (u: User)
    ensures u.id.None? && u.cpf.None? && u.name.None?
    ensures u.pixKey == pixKey && u.pixKeyType == pixKeyType
  {
    User(None, None, None, pixKeyType, pixKey)
  }
}
