/**
 * The controller's mutating actions as one request handler, and what a
 * non-administrator can achieve with any sequence of requests. The acting
 * user is recomputed from the persisted users at each request, as
 * `initializeAction` does. The handler uses the role-restricted account
 * update. The acting user's survival (`Run`) does not depend on that choice:
 * the as-written account update removes no user either.
 */
module Requests {
  import opened Roles
  import opened Domain
  import opened UsersController

  datatype Request =
    | Create(username: UserId, password: seq<string>, profile: Profile, roleIds: seq<RoleId>, provider: Option<string>)
    | Update(target: UserId, profile: Profile)
    | Delete(target: UserId)
    | UpdateAccount(target: UserId, roleIds: seq<RoleId>, password: seq<string>)
    | CreateElectronicAddress(target: UserId, address: ElectronicAddress)
    | DeleteElectronicAddress(target: UserId, address: ElectronicAddress)

  /** Argument mapping and validation that happen before an action runs. */
  predicate Admissible(users: Users, req: Request)
  {
    match req
    case Create(username, password, _, _, _) => CreateArgumentsValid(users, username, password)
    case Update(target, _) => target in users
    case Delete(target) => target in users
    case UpdateAccount(target, _, _) => target in users
    case CreateElectronicAddress(target, _) => target in users
    case DeleteElectronicAddress(target, _) => target in users
  }

  /** One request by the user `actorId`. */
  function Handle(users: Users, env: Environment, actorId: UserId, req: Request): (r: Step)
    requires actorId in users
    ensures actorId in r.users
    ensures !Admissible(users, req) ==> r == Step(users, Outcome(Refused, None))
  {
    var actor := CurrentActor(users, actorId);
    if !Admissible(users, req) then Step(users, Outcome(Refused, None))
    else
      match req
      case Create(username, password, profile, roleIds, provider) =>
        CreateAction(users, env, actor, username, password, profile, roleIds, provider)
      case Update(target, profile) => UpdateAction(users, actor, target, profile)
      case Delete(target) => DeleteAction(users, actor, target)
      case UpdateAccount(target, roleIds, password) =>
        UpdateAccountActionChecked(users, env, actor, target, roleIds, password)
      case CreateElectronicAddress(target, address) => CreateElectronicAddressAction(users, actor, target, address)
      case DeleteElectronicAddress(target, address) => DeleteElectronicAddressAction(users, actor, target, address)
  }

  /** The users after a sequence of requests by the same user. */
  function Run(users: Users, env: Environment, actorId: UserId, reqs: seq<Request>): (r: Users)
    requires actorId in users
    ensures actorId in r
    decreases |reqs|
  {
    if |reqs| == 0 then users
    else Run(Handle(users, env, actorId, reqs[0]).users, env, actorId, reqs[1..])
  }

  /**
   * Every user of `after` either holds only roles in `granted`, or existed in
   * `before` with exactly the roles it had there.
   */
  ghost predicate RolesWithin(before: Users, after: Users, granted: set<RoleId>)
  {
    forall u | u in after ::
      after[u].account.roles <= granted
      || (u in before && after[u].account.roles == before[u].account.roles)
  }

  /** One request by a non-administrator assigns no role outside their own. */
  lemma HandleStaysWithinActorRoles(users: Users, env: Environment, actorId: UserId, req: Request)
    requires actorId in users && Administrator !in users[actorId].account.roles
    ensures RolesWithin(users, Handle(users, env, actorId, req).users, users[actorId].account.roles)
  {
  }

  /**
   * No sequence of requests by a non-administrator leaves any user with a
   * role outside the actor's original roles, unless that user held exactly
   * those roles from the start; the actor never becomes an administrator.
   */
  lemma {:induction false} NonAdministratorCannotEscalate(users: Users, env: Environment, actorId: UserId,
                                                          reqs: seq<Request>)
    requires actorId in users && Administrator !in users[actorId].account.roles
    ensures RolesWithin(users, Run(users, env, actorId, reqs), users[actorId].account.roles)
    ensures Administrator !in Run(users, env, actorId, reqs)[actorId].account.roles
    decreases |reqs|
  {
    var granted := users[actorId].account.roles;
    if |reqs| > 0 {
      var next := Handle(users, env, actorId, reqs[0]).users;
      HandleStaysWithinActorRoles(users, env, actorId, reqs[0]);
      assert next[actorId].account.roles <= granted;
      NonAdministratorCannotEscalate(next, env, actorId, reqs[1..]);
      var last := Run(users, env, actorId, reqs);
      assert last == Run(next, env, actorId, reqs[1..]);
      forall u | u in last
        ensures last[u].account.roles <= granted
                || (u in users && last[u].account.roles == users[u].account.roles)
      {
        if !(last[u].account.roles <= next[actorId].account.roles) {
          assert u in next && last[u].account.roles == next[u].account.roles;
        }
      }
    }
  }
}
