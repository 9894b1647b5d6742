/** Browser storage as a map from keys to strings, with the two entries the
    client keeps: the session token and the JSON text of the signed-in user. */
module Storage {
  import opened Basics
  import opened JsonText

  type Store = map<string, string>

  const TokenKey := "token"
  const UserKey := "user"

  /** `localStorage.getItem(k)`. */
  function GetItem(st: Store, k: string): Option<string> {
    if k in st then Some(st[k]) else None
  }

  /** Removes `token` and `user`, as logout and every expired-session path
      do; every other entry stays as it was. */
  function ClearAuth(st: Store): (r: Store)
    ensures TokenKey !in r && UserKey !in r
    ensures forall k :: k != TokenKey && k != UserKey ==> GetItem(r, k) == GetItem(st, k)
  {
    st - {TokenKey, UserKey}
  }

  /** The stored user text after the `if (userData)` or `userStr ?` test: a
      missing or empty entry gives `None`; any other text is handed to
      `JSON.parse`, which throws on text that is not JSON. */
  function ReadUser(st: Store): (r: Try<Option<JsonValue>>)
    ensures !TruthyStr(GetItem(st, UserKey)) <==> r == Ok(None)
    ensures r == Thrown <==> TruthyStr(GetItem(st, UserKey)) && Parse(st[UserKey]).None?
    ensures r.Ok? && r.value.Some? ==> Parse(st[UserKey]) == r.value
  {
    var text := GetItem(st, UserKey);
    if !TruthyStr(text) then Ok(None)
    else
      match Parse(text.value)
      case Some(u) => Ok(Some(u))
      case None => Thrown
  }

  /** `localStorage.setItem('user', JSON.stringify(u))`. */
  function WriteUser(st: Store, u: JsonValue): (r: Store)
    ensures UserKey in r
    ensures forall k :: k != UserKey ==> GetItem(r, k) == GetItem(st, k)
  {
    st[UserKey := Stringify(u)]
  }

  /** A written user reads back unchanged. */
  lemma ReadWrittenUser(st: Store, u: JsonValue)
    ensures ReadUser(WriteUser(st, u)) == Ok(Some(u))
  {
    ParseStringify(u);
    StringifyStart(u);
  }
}
