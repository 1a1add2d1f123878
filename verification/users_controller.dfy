/**
 * The decision rules of the Neos user-administration module controller.
 * Each action is a pure function from the persisted users, the acting user
 * and the action's arguments to the users after the action and how the
 * action ended. A redirect or forward stops an action, so every denial
 * returns the users unchanged.
 */
module UsersController {
  import opened Roles
  import opened PhpStrings
  import opened Domain

  /** How every "not allowed" branch ends: an error message and back to the list. */
  const Denied := Outcome(Redirect(Index), Some(Error))

  /** `initializeAction`: the acting user, an administrator when their primary account holds the administrator role. */
  function CurrentActor(users: Users, id: UserId): (a: Actor)
    requires id in users
    ensures a.id == id && a.roles == users[id].account.roles
    ensures a.isAdmin <==> Administrator in a.roles
  {
    Actor(id, users[id].account.roles, Administrator in users[id].account.roles)
  }

  /**
   * `isEditingAllowed`: administrators may edit anybody; anyone else only a
   * user none of whose roles they lack (`array_diff` of the role lists is empty).
   */
  function IsEditingAllowed(actor: Actor, target: User): (allowed: bool)
    ensures actor.isAdmin ==> allowed
    ensures !actor.isAdmin ==> (allowed <==> target.account.roles <= actor.roles)
  {
    if actor.isAdmin then true
    else
      EmptyDifferenceIffSubset(target.account.roles, actor.roles);
      |target.account.roles - actor.roles| == 0
  }

  /** `getAllowedRoles`: the roles the acting user is offered for assignment. */
  function AllowedRoles(env: Environment, actor: Actor): (roles: set<RoleId>)
    ensures actor.isAdmin ==> roles == env.policyRoles
    ensures !actor.isAdmin ==> roles == actor.roles
  {
    if actor.isAdmin then env.policyRoles else actor.roles
  }

  /** `editAction`: the edit form is rendered only for a user the actor may edit. */
  function EditAction(users: Users, actor: Actor, target: UserId): (out: Outcome)
    requires target in users
    ensures out.response == Render <==> IsEditingAllowed(actor, users[target])
    ensures out.response != Render ==> out == Denied
  {
    if !IsEditingAllowed(actor, users[target]) then Denied
    else Outcome(Render, None)
  }

  /**
   * What the framework's validators guarantee before `createAction` runs:
   * a non-empty username that no user has yet, and a submitted password.
   */
  predicate CreateArgumentsValid(users: Users, username: UserId, password: seq<string>)
  {
    username != "" && username !in users && |password| > 0
  }

  /** The provider a new account gets: the one named, else the user service's default. */
  function ProviderOrDefault(env: Environment, provider: Option<string>): string
  {
    match provider
    case Some(p) => p
    case None => env.defaultProvider
  }

  /**
   * `createAction`: the user is added only when every requested role is one
   * of the actor's own; administrators get no exemption. Either way the
   * action ends with a redirect to the list.
   */
  function CreateAction(users: Users, env: Environment, actor: Actor, username: UserId,
                        password: seq<string>, profile: Profile, roleIds: seq<RoleId>,
                        provider: Option<string>): (r: Step)
    requires CreateArgumentsValid(users, username, password)
    ensures r.outcome.response == Redirect(Index)
    ensures forall u | u in users :: u in r.users && r.users[u] == users[u]
    ensures username in r.users <==> RoleSet(roleIds) <= actor.roles
    ensures RoleSet(roleIds) <= actor.roles ==>
      && r.users.Keys == users.Keys + {username}
      && r.users[username].profile == profile
      && r.users[username].account.roles == RoleSet(roleIds)
      && r.users[username].account.password == password[0]
      && r.users[username].account.provider == ProviderOrDefault(env, provider)
      && r.outcome.severity == Some(Ok)
    ensures !(RoleSet(roleIds) <= actor.roles) ==> r.users == users && r.outcome.severity == Some(Error)
  {
    AllInIffSubset(roleIds, actor.roles);
    if |ArrayDiff(roleIds, actor.roles)| == 0 then
      var account := Account(ProviderOrDefault(env, provider), RoleSet(roleIds), password[0]);
      Step(users[username := User(profile, account)], Outcome(Redirect(Index), Some(Ok)))
    else
      Step(users, Outcome(Redirect(Index), Some(Error)))
  }

  /**
   * `updateAction`: the submitted name and addresses replace the target's,
   * if the actor may edit the target; the account is never touched.
   */
  function UpdateAction(users: Users, actor: Actor, target: UserId, profile: Profile): (r: Step)
    requires target in users
    ensures r.users.Keys == users.Keys
    ensures forall u | u in users && u != target :: r.users[u] == users[u]
    ensures r.users[target].account == users[target].account
    ensures !IsEditingAllowed(actor, users[target]) ==> r == Step(users, Denied)
    ensures IsEditingAllowed(actor, users[target]) ==>
      r.users[target].profile == profile && r.outcome == Outcome(Redirect(Index), Some(Ok))
  {
    if !IsEditingAllowed(actor, users[target]) then Step(users, Denied)
    else
      var u := users[target];
      Step(users[target := u.(profile := profile)], Outcome(Redirect(Index), Some(Ok)))
  }

  /**
   * `deleteAction`: the target is removed only if the actor may edit it and
   * it is not the actor; no other user is affected.
   */
  function DeleteAction(users: Users, actor: Actor, target: UserId): (r: Step)
    requires target in users
    ensures r.outcome.response == Redirect(Index)
    ensures actor.id in users ==> actor.id in r.users
    ensures target !in r.users <==> IsEditingAllowed(actor, users[target]) && target != actor.id
    ensures forall u | u in r.users :: u in users
    ensures forall u | u in users && u != target :: u in r.users && r.users[u] == users[u]
    ensures target in r.users ==> r.users == users
    ensures !IsEditingAllowed(actor, users[target]) ==> r.outcome.severity == Some(Error)
    ensures IsEditingAllowed(actor, users[target]) && target == actor.id ==> r.outcome.severity == Some(Warning)
    ensures target !in r.users ==> r.outcome.severity == Some(Notice)
  {
    if !IsEditingAllowed(actor, users[target]) then Step(users, Denied)
    else if target == actor.id then Step(users, Outcome(Redirect(Index), Some(Warning)))
    else Step(users - {target}, Outcome(Redirect(Index), Some(Notice)))
  }

  /** `strval(array_shift($password))`: the first submitted value, or "" when none was sent. */
  function SubmittedPassword(password: seq<string>): (p: string)
    ensures |password| > 0 ==> p == password[0]
    ensures |password| == 0 ==> IsBlank(p)
  {
    if |password| == 0 then "" else password[0]
  }

  /**
   * The self-lockout guard: the actor edits their own account and the
   * submitted roles would not be granted access to this module.
   */
  predicate LocksOut(env: Environment, actor: Actor, target: UserId, roleIds: seq<RoleId>)
  {
    target == actor.id && !env.grantsModuleAccess(RoleSet(roleIds))
  }

  /**
   * `updateAccountAction` as written: guarded by `isEditingAllowed` and the
   * self-lockout check, it stores the submitted password unless it is blank
   * and makes the submitted roles the account's roles.
   */
  function UpdateAccountAction(users: Users, env: Environment, actor: Actor, target: UserId,
                               roleIds: seq<RoleId>, password: seq<string>): (r: Step)
    requires target in users
    ensures r.users.Keys == users.Keys
    ensures forall u | u in users && u != target :: r.users[u] == users[u]
    ensures r.users[target].profile == users[target].profile
    ensures r.users[target].account.provider == users[target].account.provider
    ensures !IsEditingAllowed(actor, users[target]) ==> r == Step(users, Denied)
    ensures IsEditingAllowed(actor, users[target]) && LocksOut(env, actor, target, roleIds) ==>
      r == Step(users, Outcome(Forward(Edit(actor.id)), Some(Warning)))
    ensures IsEditingAllowed(actor, users[target]) && !LocksOut(env, actor, target, roleIds) ==>
      && r.users[target].account.roles == RoleSet(roleIds)
      && r.users[target].account.password ==
           (if IsBlank(SubmittedPassword(password)) then users[target].account.password
            else SubmittedPassword(password))
      && r.outcome == Outcome(Redirect(Edit(target)), Some(Ok))
  {
    var u := users[target];
    if !IsEditingAllowed(actor, u) then Step(users, Denied)
    else if target == actor.id && !env.grantsModuleAccess(RoleSet(roleIds)) then
      Step(users, Outcome(Forward(Edit(actor.id)), Some(Warning)))
    else
      var submitted := SubmittedPassword(password);
      TrimEmptyIffBlank(submitted);
      var credential := if |Trim(submitted)| > 0 then submitted else u.account.password;
      var account := u.account.(roles := RoleSet(roleIds), password := credential);
      Step(users[target := u.(account := account)], Outcome(Redirect(Edit(target)), Some(Ok)))
  }

  /**
   * `updateAccountAction` with the role restriction the edit form implies:
   * submitted roles outside `getAllowedRoles` are refused like any other
   * denial. Otherwise it behaves exactly as written.
   */
  function UpdateAccountActionChecked(users: Users, env: Environment, actor: Actor, target: UserId,
                                      roleIds: seq<RoleId>, password: seq<string>): (r: Step)
    requires target in users
    ensures RoleSet(roleIds) <= AllowedRoles(env, actor) ==>
      r == UpdateAccountAction(users, env, actor, target, roleIds, password)
    ensures !(RoleSet(roleIds) <= AllowedRoles(env, actor)) ==> r == Step(users, Denied)
    ensures r.users.Keys == users.Keys
    ensures forall u | u in users ::
      r.users[u].account.roles == users[u].account.roles || r.users[u].account.roles <= AllowedRoles(env, actor)
  {
    if !(RoleSet(roleIds) <= AllowedRoles(env, actor)) then Step(users, Denied)
    else UpdateAccountAction(users, env, actor, target, roleIds, password)
  }

  /** `createElectronicAddressAction`: the address joins the target's addresses. */
  function CreateElectronicAddressAction(users: Users, actor: Actor, target: UserId,
                                         address: ElectronicAddress): (r: Step)
    requires target in users
    ensures r.users.Keys == users.Keys
    ensures forall u | u in users && u != target :: r.users[u] == users[u]
    ensures r.users[target].account == users[target].account
    ensures r.users[target].profile.name == users[target].profile.name
    ensures !IsEditingAllowed(actor, users[target]) ==> r == Step(users, Denied)
    ensures IsEditingAllowed(actor, users[target]) ==>
      && (forall a :: a in r.users[target].profile.addresses <==>
                        a in users[target].profile.addresses || a == address)
      && r.outcome == Outcome(Redirect(Edit(target)), Some(Ok))
  {
    var u := users[target];
    if !IsEditingAllowed(actor, u) then Step(users, Denied)
    else
      var profile := u.profile.(addresses := u.profile.addresses + {address});
      Step(users[target := u.(profile := profile)], Outcome(Redirect(Edit(target)), Some(Ok)))
  }

  /** `deleteElectronicAddressAction`: the address leaves the target's addresses. */
  function DeleteElectronicAddressAction(users: Users, actor: Actor, target: UserId,
                                         address: ElectronicAddress): (r: Step)
    requires target in users
    ensures r.users.Keys == users.Keys
    ensures forall u | u in users && u != target :: r.users[u] == users[u]
    ensures r.users[target].account == users[target].account
    ensures r.users[target].profile.name == users[target].profile.name
    ensures !IsEditingAllowed(actor, users[target]) ==> r == Step(users, Denied)
    ensures IsEditingAllowed(actor, users[target]) ==>
      && (forall a :: a in r.users[target].profile.addresses <==>
                        a in users[target].profile.addresses && a != address)
      && r.outcome == Outcome(Redirect(Edit(target)), Some(Notice))
  {
    var u := users[target];
    if !IsEditingAllowed(actor, u) then Step(users, Denied)
    else
      var profile := u.profile.(addresses := u.profile.addresses - {address});
      Step(users[target := u.(profile := profile)], Outcome(Redirect(Edit(target)), Some(Notice)))
  }
}
