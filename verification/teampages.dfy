/** The dashboard and the shared page layout: which team is selected after
    the team list loads, the handlers that change the selection, the
    layout's route guard, the member role lookup and logout. */
module TeamPages {
  import opened Basics
  import opened Domain
  import opened Props
  import opened Json
  import opened Http
  import opened Storage
  import opened JsonText
  import opened TeamService
  import opened AuthService

  const LoginPath := "/login"
  const SignupPath := "/signup"

  /** The role shown when the user is not found among the team's members. */
  const DefaultRole := "MEMBER"

  /** The team-related state of the dashboard and of the layout. The layout
      has no `teamsLoading` flag; its functions leave it as it is. */
  datatype Page = Page(teams: seq<Team>, selected: Option<Team>, teamsLoading: bool)

  const InitialPage := Page([], None, true)

  /** `teams.find(team => team.id === id)`. */
  function FindTeam(teams: seq<Team>, id: string): (r: Option<Team>)
    ensures r.Some? ==> r.value in teams && r.value.id == id
    ensures r.None? <==> forall t :: t in teams ==> t.id != id
    decreases |teams|
  {
    if teams == [] then None
    else if teams[0].id == id then Some(teams[0])
    else FindTeam(teams[1..], id)
  }

  /** No two teams of the list share an id, as the server's list has it. */
  predicate UniqueIds(teams: seq<Team>) {
    forall i, j :: 0 <= i < j < |teams| ==> teams[i].id != teams[j].id
  }

  /** With distinct ids, looking a listed team up by its id finds exactly
      that team. */
  lemma {:induction false} FindListedTeam(teams: seq<Team>, t: Team)
    requires UniqueIds(teams) && t in teams
    ensures FindTeam(teams, t.id) == Some(t)
    decreases |teams|
  {
    if teams[0] != t {
      assert t in teams[1..] by {
        var i :| 0 <= i < |teams| && teams[i] == t;
        assert teams[1..][i - 1] == t;
      }
      var i :| 0 < i < |teams| && teams[i] == t;
      assert teams[0].id != teams[i].id;
      FindListedTeam(teams[1..], t);
    }
  }

  /** `teams.find(team => team.id === last)`: only a string can equal a
      team's id. */
  function Remembered(teams: seq<Team>, last: Value): (r: Option<Team>)
    ensures r.Some? ==> r.value in teams && last == Str(r.value.id)
    ensures last.Str? ==> r == FindTeam(teams, last.s)
    ensures !last.Str? ==> r.None?
  {
    if last.Str? then FindTeam(teams, last.s) else None
  }

  /** The selection together with the storage it leaves behind. */
  datatype Selection = Selection(selected: Option<Team>, store: Store)

  /** `setSelectedTeam(t); teamService.setLastSelectedTeam(t.id)`: the
      selection is made first, so a save that throws leaves the new
      selection in place and the storage unchanged. */
  function Persist(t: Team, st: Store): (r: Selection)
    ensures r.selected == Some(t)
    ensures SetLastSelectedTeam(st, t.id).Thrown? ==> r.store == st
    ensures SetLastSelectedTeam(st, t.id).Ok? ==> r.store == SetLastSelectedTeam(st, t.id).value
  {
    match SetLastSelectedTeam(st, t.id)
    case Ok(s) => Selection(Some(t), s)
    case Thrown => Selection(Some(t), st)
  }

  /** The dashboard's choice once the list `teams` has been received: the
      remembered team when it is still in the list, otherwise the first team,
      which is then remembered; an empty list changes nothing. Reading the
      remembered value throws on stored text that is not JSON or is `null`,
      and the surrounding `catch` then leaves the selection as it was. */
  function DashboardSelect(teams: seq<Team>, selected: Option<Team>, st: Store): (r: Selection)
    ensures GetLastSelectedTeam(st).Thrown? || teams == [] ==> r == Selection(selected, st)
    ensures teams != [] && GetLastSelectedTeam(st).Ok? ==> r.selected.Some? && r.selected.value in teams
    ensures r.store == st || (r.selected.Some? && Ok(r.store) == SetLastSelectedTeam(st, r.selected.value.id))
  {
    match GetLastSelectedTeam(st)
    case Thrown => Selection(selected, st)
    case Ok(last) =>
      if last.Some? && |teams| > 0 then
        match Remembered(teams, last.value)
        case Some(t) => Selection(Some(t), st)
        case None => Persist(teams[0], st)
      else if |teams| > 0 then Persist(teams[0], st)
      else Selection(selected, st)
  }

  /** The layout's copy of the same choice, with its extra (always true)
      length test in the not-found branch. */
  function LayoutSelect(teams: seq<Team>, selected: Option<Team>, st: Store): (r: Selection)
    ensures GetLastSelectedTeam(st).Thrown? || teams == [] ==> r == Selection(selected, st)
    ensures teams != [] && GetLastSelectedTeam(st).Ok? ==> r.selected.Some? && r.selected.value in teams
  {
    match GetLastSelectedTeam(st)
    case Thrown => Selection(selected, st)
    case Ok(last) =>
      if last.Some? && |teams| > 0 then
        match Remembered(teams, last.value)
        case Some(t) => Selection(Some(t), st)
        case None =>
          if |teams| > 0 then Persist(teams[0], st) else Selection(selected, st)
      else if |teams| > 0 then Persist(teams[0], st)
      else Selection(selected, st)
  }

  /** The dashboard and the layout make the same choice on every input. */
  lemma LayoutSelectAgrees(teams: seq<Team>, selected: Option<Team>, st: Store)
    ensures LayoutSelect(teams, selected, st) == DashboardSelect(teams, selected, st)
  {
  }

  /** A remembered team that is still listed is selected again and the
      storage is left alone. */
  lemma SelectRemembered(teams: seq<Team>, selected: Option<Team>, st: Store, t: Team)
    requires GetLastSelectedTeam(st) == Ok(Some(Str(t.id)))
    requires UniqueIds(teams) && t in teams
    ensures DashboardSelect(teams, selected, st) == Selection(Some(t), st)
  {
    FindListedTeam(teams, t);
  }

  /** Without a remembered team, or when the remembered value names no
      listed team, the first team is selected; the save runs, and when the
      stored user takes the preference the first team is remembered from
      then on. */
  lemma SelectFirstOtherwise(teams: seq<Team>, selected: Option<Team>, st: Store)
    ensures var last := GetLastSelectedTeam(st);
      var s := DashboardSelect(teams, selected, st);
      teams != [] && last.Ok? && (last.value.None? || Remembered(teams, last.value.value).None?) ==>
        && s.selected == Some(teams[0])
        && s.store == (if SetLastSelectedTeam(st, teams[0].id).Ok? then SetLastSelectedTeam(st, teams[0].id).value else st)
        && (StoredUserRemembers(st) ==>
              GetLastSelectedTeam(s.store) == Ok(if teams[0].id == "" then None else Some(Str(teams[0].id))))
  {
    if teams != [] {
      SetThenGetLastSelected(st, teams[0].id);
    }
  }

  /** An empty list, or a stored user that cannot be read, leaves both the
      selection and the storage as they were. */
  lemma SelectEmptyKeeps(teams: seq<Team>, selected: Option<Team>, st: Store)
    ensures DashboardSelect([], selected, st) == Selection(selected, st)
    ensures GetLastSelectedTeam(st).Thrown? ==> DashboardSelect(teams, selected, st) == Selection(selected, st)
  {
  }

  /** Choosing is idempotent: choosing again from the same list, starting
      from the outcome of a first choice, changes nothing, whatever the
      stored user is. */
  lemma SelectIdempotent(teams: seq<Team>, selected: Option<Team>, st: Store)
    ensures var s := DashboardSelect(teams, selected, st);
      DashboardSelect(teams, s.selected, s.store) == s
  {
    var s := DashboardSelect(teams, selected, st);
    if GetLastSelectedTeam(st).Ok? && teams != [] && s.store != st {
      assert s.selected == Some(teams[0]);
      var id := teams[0].id;
      SetThenGetLastSelected(st, id);
      SetLastSelectedTwice(st, id);
      if StoredUserRemembers(st) && id != "" {
        assert Remembered(teams, Str(id)) == Some(teams[0]);
      }
    }
  }

  /** The team list in an answer: `result.success && result.data`, read as a
      list of teams. */
  function ListedTeams(result: JsObject): Option<seq<Team>> {
    if TruthyAt(result, "success") && TruthyAt(result, "data") then
      match Get(result, "data").value
      case JData(TeamListData(ts)) => Some(ts)
      case _ => None
    else None
  }

  /** The state after the page's `loadUserTeams()`. */
  datatype Loaded = Loaded(page: Page, store: Store)

  /** Dashboard `loadUserTeams()` given the answer to `GET /api/teams`: on a
      successful answer the list replaces the page's teams and the selection
      rule runs; on any other answer nothing changes. `teamsLoading` is
      cleared in every case. */
  function DashboardLoad(p: Page, st: Store, f: Fetch): (r: Loaded)
    ensures !r.page.teamsLoading
    ensures ListedTeams(MapFetch(f)).None? ==> r == Loaded(p.(teamsLoading := false), st)
    ensures ListedTeams(MapFetch(f)).Some? ==> r.page.teams == ListedTeams(MapFetch(f)).value
  {
    match ListedTeams(MapFetch(f))
    case None => Loaded(p.(teamsLoading := false), st)
    case Some(ts) =>
      var s := DashboardSelect(ts, p.selected, st);
      Loaded(Page(ts, s.selected, false), s.store)
  }

  /** Layout `loadUserTeams()`: the same, without a loading flag. */
  function LayoutLoad(p: Page, st: Store, f: Fetch): (r: Loaded)
    ensures r.page.teamsLoading == p.teamsLoading
    ensures ListedTeams(MapFetch(f)).None? ==> r == Loaded(p, st)
  {
    match ListedTeams(MapFetch(f))
    case None => Loaded(p, st)
    case Some(ts) =>
      var s := LayoutSelect(ts, p.selected, st);
      Loaded(p.(teams := ts, selected := s.selected), s.store)
  }

  /** A failed team request, whatever its cause, changes neither the teams,
      the selection nor the storage. */
  lemma FailedLoadKeeps(p: Page, st: Store, f: Fetch)
    requires !(f.Responded? && f.body.JsonObject? && IsOk(f.status))
    ensures DashboardLoad(p, st, f) == Loaded(p.(teamsLoading := false), st)
    ensures LayoutLoad(p, st, f) == Loaded(p, st)
  {
    MapFetchFailureHasError(f);
  }

  /** A successful answer listing the teams: the dashboard and the layout
      end with the same teams, the same selection and the same storage, and
      a selection is made whenever the list is not empty and the remembered
      value can be read. */
  lemma LoadsAgree(p: Page, st: Store, f: Fetch)
    ensures DashboardLoad(p, st, f).store == LayoutLoad(p, st, f).store
    ensures DashboardLoad(p, st, f).page.teams == LayoutLoad(p, st, f).page.teams
    ensures DashboardLoad(p, st, f).page.selected == LayoutLoad(p, st, f).page.selected
    ensures (ListedTeams(MapFetch(f)).Some? && |ListedTeams(MapFetch(f)).value| > 0 && GetLastSelectedTeam(st).Ok?)
      ==> DashboardLoad(p, st, f).page.selected.Some?
  {
    if ListedTeams(MapFetch(f)).Some? {
      LayoutSelectAgrees(ListedTeams(MapFetch(f)).value, p.selected, st);
    }
  }

  /** `handleTeamSelect(team)` on the dashboard. */
  function SelectTeam(p: Page, st: Store, t: Team): (r: Loaded)
    ensures r.page == p.(selected := Some(t))
  {
    var s := Persist(t, st);
    Loaded(p.(selected := s.selected), s.store)
  }

  /** `handleTeamCreated(team)` and `handleTeamJoined(team)`: the team is
      added at the end of the list, selected and remembered. */
  function AddTeam(p: Page, st: Store, t: Team): (r: Loaded)
    ensures r.page.teams == p.teams + [t]
    ensures r.page.selected == Some(t)
    ensures r.page.teamsLoading == p.teamsLoading
  {
    var s := Persist(t, st);
    Loaded(p.(teams := p.teams + [t], selected := s.selected), s.store)
  }

  /** A team picked by hand is the one selected again when the same list is
      loaded later, provided the stored user takes the preference. */
  lemma SelectedTeamSurvivesReload(p: Page, st: Store, t: Team, teams: seq<Team>)
    requires t.id != "" && UniqueIds(teams) && t in teams
    ensures StoredUserRemembers(st) ==>
      DashboardSelect(teams, None, SelectTeam(p, st, t).store).selected == Some(t)
  {
    SetThenGetLastSelected(st, t.id);
    FindListedTeam(teams, t);
  }

  /** A created or joined team stays selected when the extended list is
      loaded again, provided its id is new to the list and the stored user
      takes the preference. */
  lemma AddedTeamSurvivesReload(p: Page, st: Store, t: Team)
    requires t.id != "" && UniqueIds(p.teams)
    requires forall u :: u in p.teams ==> u.id != t.id
    ensures UniqueIds(AddTeam(p, st, t).page.teams)
    ensures StoredUserRemembers(st) ==>
      DashboardSelect(AddTeam(p, st, t).page.teams, None, AddTeam(p, st, t).store).selected == Some(t)
  {
    var ts := p.teams + [t];
    assert UniqueIds(ts) by {
      forall i, j | 0 <= i < j < |ts| ensures ts[i].id != ts[j].id {
        if j == |p.teams| {
          assert ts[i] in p.teams;
        }
      }
    }
    SetThenGetLastSelected(st, t.id);
    FindListedTeam(ts, t);
  }

  /** `publicRoutes.includes(location.pathname)`. */
  predicate IsPublicRoute(path: string) {
    path in [LoginPath, SignupPath]
  }

  /** What a page's mount effect does. */
  datatype Mount =
    | Stay                      // nothing: a public route
    | ToLogin                   // `navigate('/login')`, nothing loaded
    | LoadTeams(user: JsonValue)  // the stored user is shown and the teams are loaded
    | Crashed                   // `getAuthData()` threw inside the effect

  /** The dashboard's mount effect. */
  function DashboardMount(st: Store): (m: Mount)
    ensures m.ToLogin? <==> !IsAuthenticated(st)
    ensures m != Stay
  {
    if !IsAuthenticated(st) then ToLogin
    else
      match GetAuthData(st)
      case Thrown => Crashed
      case Ok(d) => LoadTeams(d.user)
  }

  /** The layout's mount effect: on a public route it does nothing at all. */
  function LayoutMount(path: string, st: Store): (m: Mount)
    ensures m.Stay? <==> IsPublicRoute(path)
  {
    if IsPublicRoute(path) then Stay
    else if !IsAuthenticated(st) then ToLogin
    else
      match GetAuthData(st)
      case Thrown => Crashed
      case Ok(d) => LoadTeams(d.user)
  }

  /** Off the public routes the layout guards exactly as the dashboard does;
      the login and signup pages are never redirected, and an anonymous
      visitor of any other page is sent to login without loading anything. */
  lemma MountGuards(path: string, st: Store)
    ensures !IsPublicRoute(path) ==> LayoutMount(path, st) == DashboardMount(st)
    ensures IsPublicRoute(path) <==> path == LoginPath || path == SignupPath
    ensures !IsPublicRoute(path) && !IsAuthenticated(st) ==> LayoutMount(path, st) == ToLogin
  {
  }

  /** A signed-in user whose record was stored by `setAuthData` is shown
      and the teams are loaded, on every page the layout guards. */
  lemma SignedInLoads(path: string, st: Store, token: string, u: JsonValue)
    requires token != "" && !IsPublicRoute(path)
    ensures LayoutMount(path, SetAuthData(st, token, u)) == LoadTeams(u)
  {
    SetThenGetAuthData(st, token, u);
  }

  /** The role of the first member whose email is `email`, `MEMBER` when
      nobody matches. */
  function RoleFor(members: seq<TeamMember>, email: string): (r: string)
    ensures (forall m :: m in members ==> m.email != email) ==> r == DefaultRole
    ensures (exists i :: 0 <= i < |members| && members[i].email == email) ==>
      exists i :: 0 <= i < |members| && members[i].email == email && r == members[i].role
        && forall j :: 0 <= j < i ==> members[j].email != email
    decreases |members|
  {
    if members == [] then DefaultRole
    else if members[0].email == email then members[0].role
    else
      var r := RoleFor(members[1..], email);
      assert forall i :: 1 <= i < |members| ==> members[1..][i - 1] == members[i];
      r
  }

  /** The layout's role state and the team-details request it sent, if any. */
  datatype RoleLoad = RoleLoad(requested: Option<string>, role: string)

  /** `user.email` on the stored user, when it is a string: a member's
      email, always a string, can equal nothing else. */
  function UserEmail(user: Value): (r: Option<string>)
    ensures r.Some? ==> Prop(user, "email") == Some(Str(r.value))
    ensures r.None? ==> forall e :: Prop(user, "email") != Some(Str(e))
  {
    match Prop(user, "email")
    case Some(Str(e)) => Some(e)
    case _ => None
  }

  /** The role the user holds among `members`: that of the first member
      with the user's email, `MEMBER` when there is none. */
  function RoleOf(members: seq<TeamMember>, user: Value): (r: string)
    ensures UserEmail(user).None? ==> r == DefaultRole
    ensures UserEmail(user).Some? ==> r == RoleFor(members, UserEmail(user).value)
  {
    match UserEmail(user)
    case Some(e) => RoleFor(members, e)
    case None => DefaultRole
  }

  /** `loadTeamDetailsAndRole()` for the team `selected` and the user `user`
      the callback captured: nothing when either is falsy; otherwise `GET
      /api/teams/<id>`, and the role is replaced only on a successful answer
      carrying the team. */
  function LoadRole(role: string, selected: Option<Team>, user: Value, f: Fetch): (r: RoleLoad)
    ensures selected.None? || !JsonText.Truthy(user) ==> r == RoleLoad(None, role)
    ensures selected.Some? && JsonText.Truthy(user) ==> r.requested == Some("/api/teams/" + selected.value.id)
    ensures !(f.Responded? && f.body.JsonObject? && IsOk(f.status)) ==> r.role == role
  {
    if selected.None? || !JsonText.Truthy(user) then RoleLoad(None, role)
    else
      var result := MapFetch(f);
      var role' :=
        if TruthyAt(result, "success") && TruthyAt(result, "data") then
          match Get(result, "data").value
          case JData(TeamData(team)) => RoleOf(team.members, user)
          case _ => role
        else role;
      RoleLoad(Some("/api/teams/" + selected.value.id), role')
  }

  /** A successful answer carrying the team sets the role the user holds in
      it, and `MEMBER` when the user is not one of its members or has no
      string email. The answer may carry its own `success`; a falsy one
      keeps the role. */
  lemma RoleFromAnswer(role: string, t: Team, u: Value, status: int, body: JsObject)
    requires JsonText.Truthy(u)
    requires IsOk(status) && UniqueKeys(body)
    requires Get(body, "data") == Some(JData(TeamData(t)))
    ensures var r := LoadRole(role, Some(t), u, Responded(status, JsonObject(body))).role;
      (Has(body, "success") ==> TruthyAt(body, "success")) ==>
        && (UserEmail(u).Some? ==> r == RoleFor(t.members, UserEmail(u).value))
        && (UserEmail(u).None? || (forall m :: m in t.members ==> m.email != UserEmail(u).value) ==> r == DefaultRole)
    ensures Has(body, "success") && !TruthyAt(body, "success") ==>
      LoadRole(role, Some(t), u, Responded(status, JsonObject(body))).role == role
  {
    SucceededFields(body, "data");
    SucceededFields(body, "success");
    assert TruthyAt(Succeeded(body), "data");
  }

  /** The layout's `handleTeamSelect(team)` as written. The selection is
      made first. The save has no `try` around it, so a save that throws
      rejects the handler before the role reload starts. Otherwise the
      awaited reload is the callback of the current render, whose captured
      team is the one selected before the click. */
  function LayoutSelectTeam(p: Page, st: Store, role: string, user: Value, t: Team, f: Fetch): (r: (Loaded, RoleLoad))
    ensures r.0.page == p.(selected := Some(t))
    ensures SetLastSelectedTeam(st, t.id).Ok? ==> r.0.store == SetLastSelectedTeam(st, t.id).value
    ensures SetLastSelectedTeam(st, t.id).Thrown? ==> r.0.store == st && r.1 == RoleLoad(None, role)
    ensures SetLastSelectedTeam(st, t.id).Ok? && p.selected.Some? && JsonText.Truthy(user) ==>
      r.1.requested == Some("/api/teams/" + p.selected.value.id)
    ensures p.selected.None? || !JsonText.Truthy(user) ==> r.1 == RoleLoad(None, role)
    ensures r.1.requested.None? ==> r.1.role == role
  {
    var picked := SelectTeam(p, st, t);
    if SetLastSelectedTeam(st, t.id).Thrown? then (picked, RoleLoad(None, role))
    else (picked, LoadRole(role, p.selected, user, f))
  }

  /** Switching from team `a` to team `b` fetches the details of `a`, not
      `b`, whenever the save goes through; in particular whenever the stored
      user takes the preference. A save that throws fetches nothing. */
  lemma LayoutSelectFetchesPrevious(a: Team, b: Team, st: Store, u: Value, f: Fetch)
    requires a.id != b.id && JsonText.Truthy(u)
    ensures var r := LayoutSelectTeam(Page([a, b], Some(a), false), st, DefaultRole, u, b, f);
      && r.0.page.selected == Some(b)
      && (SetLastSelectedTeam(st, b.id).Ok? ==>
            r.1.requested == Some("/api/teams/" + a.id) && r.1.requested != Some("/api/teams/" + b.id))
      && (SetLastSelectedTeam(st, b.id).Thrown? ==> r.1.requested.None?)
    ensures StoredUserRemembers(st) ==>
      LayoutSelectTeam(Page([a, b], Some(a), false), st, DefaultRole, u, b, f).1.requested == Some("/api/teams/" + a.id)
  {
    SetThenGetLastSelected(st, b.id);
    var pa := "/api/teams/" + a.id;
    var pb := "/api/teams/" + b.id;
    assert pa[11..] == a.id && pb[11..] == b.id;
  }

  /** `handleTeamSelect(team)` with the role reloaded for the team just
      picked; a save that throws still ends the handler. */
  function LayoutSelectTeamFixed(p: Page, st: Store, role: string, user: Value, t: Team, f: Fetch): (r: (Loaded, RoleLoad))
    ensures r.0.page == p.(selected := Some(t))
    ensures SetLastSelectedTeam(st, t.id).Ok? ==> r.0.store == SetLastSelectedTeam(st, t.id).value
    ensures SetLastSelectedTeam(st, t.id).Thrown? ==> r.0.store == st && r.1 == RoleLoad(None, role)
    ensures SetLastSelectedTeam(st, t.id).Ok? && JsonText.Truthy(user) ==> r.1.requested == Some("/api/teams/" + t.id)
    ensures !JsonText.Truthy(user) ==> r.1 == RoleLoad(None, role)
    ensures r.1.requested.None? ==> r.1.role == role
  {
    var picked := SelectTeam(p, st, t);
    if SetLastSelectedTeam(st, t.id).Thrown? then (picked, RoleLoad(None, role))
    else (picked, LoadRole(role, Some(t), user, f))
  }

  /** After the corrected handler the details requested, if any, are those
      of the team now selected; with a stored user that takes the preference
      they are requested. */
  lemma LayoutSelectFixedFetchesSelected(p: Page, st: Store, role: string, u: Value, t: Team, f: Fetch)
    requires JsonText.Truthy(u)
    ensures var r := LayoutSelectTeamFixed(p, st, role, u, t, f);
      && (r.1.requested.Some? ==> r.1.requested == Some("/api/teams/" + r.0.page.selected.value.id))
      && (r.1.requested.None? <==> SetLastSelectedTeam(st, t.id).Thrown?)
    ensures StoredUserRemembers(st) ==>
      LayoutSelectTeamFixed(p, st, role, u, t, f).1.requested == Some("/api/teams/" + t.id)
  {
    SetThenGetLastSelected(st, t.id);
  }

  /** `handleLogout()` on the dashboard and in the layout: the logout call,
      then `/login`. The call itself never throws, so the `catch` branches
      that clear storage by hand are not reached. */
  function HandleLogout(st: Store, f: Fetch): (r: (Store, string))
    ensures r.1 == LoginPath
  {
    (Logout(st, f).store, LoginPath)
  }

  /** After logging out nobody is signed in, whatever the server answered,
      and a page mounted next is sent to login. */
  lemma LogoutSignsOut(st: Store, f: Fetch, path: string)
    ensures !IsAuthenticated(HandleLogout(st, f).0)
    ensures ReadUser(HandleLogout(st, f).0) == Ok(None)
    ensures !IsPublicRoute(path) ==> LayoutMount(path, HandleLogout(st, f).0) == ToLogin
    ensures forall k :: k != TokenKey && k != UserKey ==> GetItem(HandleLogout(st, f).0, k) == GetItem(st, k)
  {
    ClearedAuthData(st);
  }
}
