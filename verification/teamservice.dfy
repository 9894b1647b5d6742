/** The team service's "last selected team" preference, kept inside the
    stored user record as `preferences.lastSelectedTeam`. */
module TeamService {
  import opened Basics
  import opened Props
  import opened JsonText
  import opened Storage

  const PreferencesKey := "preferences"
  const LastSelectedKey := "lastSelectedTeam"

  /** `user.preferences || {}` on a user object. */
  function PreferencesOr(ms: seq<(string, Value)>): (r: Value)
    ensures Truthy(r)
    ensures Get(ms, PreferencesKey).Some? && Truthy(Get(ms, PreferencesKey).value) ==>
      r == Get(ms, PreferencesKey).value
  {
    var p := Get(ms, PreferencesKey);
    if p.Some? && Truthy(p.value) then p.value else Obj([])
  }

  /** A stored user that takes the preference: an object whose
      `preferences` is missing, falsy or an object. */
  predicate Remembers(user: Value) {
    user.Obj? && PreferencesOr(user.members).Obj?
  }

  /** A stored user on which both assignments succeed: an array, or an
      object whose `preferences || {}` is an object or an array. */
  predicate Assignable(user: Value) {
    user.Arr? || (user.Obj? && (PreferencesOr(user.members).Obj? || PreferencesOr(user.members).Arr?))
  }

  /** The parsed user after `user.preferences = user.preferences || {}` and
      `user.preferences.lastSelectedTeam = teamId`, in strict-mode code:
      reading a property of `null` throws, and so does assigning one on a
      boolean, a number or a string. An array takes the assignment as a
      property that `JSON.stringify` leaves out, so it is written back as it
      was read. */
  function WithLastSelected(user: JsonValue, teamId: string): Try<JsonValue> {
    match user
    case Obj(ms) =>
      GetWF(ms, PreferencesKey);
      var pref := PreferencesOr(ms);
      (match pref
       case Obj(ps) =>
         var np := Obj(Put(ps, LastSelectedKey, Str(teamId)));
         PutWF(ps, LastSelectedKey, Str(teamId));
         PutWF(ms, PreferencesKey, np);
         Ok(Obj(Put(ms, PreferencesKey, np)))
       case Arr(_) => Ok(user)
       case _ => Thrown)
    case Arr(_) => Ok(user)
    case _ => Thrown
  }

  /** `setLastSelectedTeam(teamId)`: a no-op without a stored user; throws
      when the stored text is not JSON or is `null`; otherwise it writes the
      updated user back and touches no other entry. */
  function SetLastSelectedTeam(st: Store, teamId: string): (r: Try<Store>)
    ensures ReadUser(st) == Ok(None) ==> r == Ok(st)
    ensures ReadUser(st).Thrown? || ReadUser(st) == Ok(Some(Null)) ==> r.Thrown?
    ensures r.Ok? ==> forall k :: k != UserKey ==> GetItem(r.value, k) == GetItem(st, k)
  {
    match ReadUser(st)
    case Thrown => Thrown
    case Ok(None) => Ok(st)
    case Ok(Some(u)) =>
      match WithLastSelected(u, teamId)
      case Thrown => Thrown
      case Ok(w) => Ok(WriteUser(st, w))
  }

  /** `user.preferences?.lastSelectedTeam || null` on the parsed user:
      reading a property of `null` throws; a missing or `null` preferences
      value short-circuits to `null`. */
  function LastSelectedOf(user: JsonValue): Try<Option<Value>> {
    if user.Null? then Thrown
    else
      var pref := Prop(user, PreferencesKey);
      if pref.None? || pref.value.Null? then Ok(None)
      else
        var v := Prop(pref.value, LastSelectedKey);
        Ok(if v.Some? && Truthy(v.value) then v else None)
  }

  /** `getLastSelectedTeam()`: the remembered value when it is truthy,
      whatever its type, and `null` otherwise. */
  function GetLastSelectedTeam(st: Store): (r: Try<Option<Value>>)
    ensures ReadUser(st) == Ok(None) ==> r == Ok(None)
    ensures ReadUser(st).Thrown? || ReadUser(st) == Ok(Some(Null)) ==> r.Thrown?
    ensures r.Ok? && r.value.Some? ==> Truthy(r.value.value)
  {
    match ReadUser(st)
    case Thrown => Thrown
    case Ok(None) => Ok(None)
    case Ok(Some(u)) => LastSelectedOf(u)
  }

  /** The stored user is readable and takes the preference. */
  predicate StoredUserRemembers(st: Store) {
    ReadUser(st).Ok? && ReadUser(st).value.Some? && Remembers(ReadUser(st).value.value)
  }

  /** When the stored user takes the preference, saving succeeds and the id
      written is the value read back, an empty id reading back as no
      selection. On every other stored user a save that does not throw
      leaves the value read back as it was. */
  lemma SetThenGetLastSelected(st: Store, teamId: string)
    ensures StoredUserRemembers(st) ==> SetLastSelectedTeam(st, teamId).Ok?
    ensures var r := SetLastSelectedTeam(st, teamId);
      r.Ok? ==>
        GetLastSelectedTeam(r.value) ==
          (if StoredUserRemembers(st) then Ok(if teamId == "" then None else Some(Str(teamId)))
           else GetLastSelectedTeam(st))
  {
    match ReadUser(st)
    case Thrown =>
    case Ok(None) =>
    case Ok(Some(u)) =>
      match WithLastSelected(u, teamId)
      case Thrown =>
      case Ok(w) =>
        ReadWrittenUser(st, w);
  }

  /** Saving throws exactly when the stored text is not JSON or the stored
      user cannot take both assignments; in particular it throws wherever
      reading throws. */
  lemma SetLastSelectedThrows(st: Store, teamId: string)
    ensures SetLastSelectedTeam(st, teamId).Thrown? <==>
      ReadUser(st).Thrown? || (ReadUser(st).Ok? && ReadUser(st).value.Some? && !Assignable(ReadUser(st).value.value))
    ensures GetLastSelectedTeam(st).Thrown? ==> SetLastSelectedTeam(st, teamId).Thrown?
  {
  }

  /** Without a stored user, saving does nothing and nothing reads back. */
  lemma NoUserNoSelection(st: Store, teamId: string)
    requires ReadUser(st) == Ok(None)
    ensures SetLastSelectedTeam(st, teamId) == Ok(st)
    ensures GetLastSelectedTeam(st) == Ok(None)
  {
  }

  /** Saving changes only `preferences.lastSelectedTeam`: every other
      property of the user, and every other preference of a user that takes
      the preference, reads as before. */
  lemma SetLastSelectedKeepsTheRest(st: Store, teamId: string, k: string, pk: string)
    requires k != PreferencesKey && pk != LastSelectedKey
    ensures var r := SetLastSelectedTeam(st, teamId);
      r.Ok? && ReadUser(st).Ok? && ReadUser(st).value.Some? ==>
        && ReadUser(r.value).Ok? && ReadUser(r.value).value.Some?
        && KeepsAllBut(ReadUser(st).value.value, ReadUser(r.value).value.value, k, pk)
  {
    match ReadUser(st)
    case Thrown =>
    case Ok(None) =>
    case Ok(Some(u)) =>
      match WithLastSelected(u, teamId)
      case Thrown =>
      case Ok(w) =>
        ReadWrittenUser(st, w);
        if Remembers(u) {
          var ps := PreferencesOr(u.members).members;
          var np := Obj(Put(ps, LastSelectedKey, Str(teamId)));
          PutOther(u.members, PreferencesKey, np, k);
          PutOther(ps, LastSelectedKey, Str(teamId), pk);
        }
  }

  /** User property `k` reads the same in `u` and `u'`; when `u` takes the
      preference, preference `pk` of `u'` reads as it did in
      `u.preferences || {}`. */
  predicate KeepsAllBut(u: Value, u': Value, k: string, pk: string) {
    && Prop(u', k) == Prop(u, k)
    && (Remembers(u) ==>
          Prop(u', PreferencesKey).Some?
          && Prop(Prop(u', PreferencesKey).value, pk) == Prop(PreferencesOr(u.members), pk))
  }

  /** Saving the same id twice is saving it once. */
  lemma SetLastSelectedTwice(st: Store, teamId: string)
    ensures var r := SetLastSelectedTeam(st, teamId);
      r.Ok? ==> SetLastSelectedTeam(r.value, teamId) == r
  {
    match ReadUser(st)
    case Thrown =>
    case Ok(None) =>
    case Ok(Some(u)) =>
      match WithLastSelected(u, teamId)
      case Thrown =>
      case Ok(w) =>
        ReadWrittenUser(st, w);
        if Remembers(u) {
          var ps := PreferencesOr(u.members).members;
          var ps' := Put(ps, LastSelectedKey, Str(teamId));
          PutSame(ps', LastSelectedKey, Str(teamId));
          PutSame(Put(u.members, PreferencesKey, Obj(ps')), PreferencesKey, Obj(ps'));
          assert WithLastSelected(w, teamId) == Ok(w);
        }
        assert WriteUser(WriteUser(st, w), w) == WriteUser(st, w);
  }
}
