/**
 * The entities the user-administration controller acts on, and the shape of
 * an action's result. Persistence, the policy service and the authentication
 * manager are abstracted into plain values.
 */
module Domain {
  import opened Roles

  /** A user is identified by the identifier of its primary account (the username). */
  type UserId = string

  datatype Option<T> = None | Some(value: T)

  /** A typed contact address of a user, tagged with its usage type. */
  datatype ElectronicAddress = ElectronicAddress(identifier: string, kind: string, usage: string)

  /** The part of a user the edit form binds: display name and addresses. */
  datatype Profile = Profile(name: string, addresses: set<ElectronicAddress>)

  /** The primary account: provider, assigned roles and the stored credential. */
  datatype Account = Account(provider: string, roles: set<RoleId>, password: string)

  datatype User = User(profile: Profile, account: Account)

  /** What the user service persists. */
  type Users = map<UserId, User>

  /** The acting user, fixed for one request by `initializeAction`. */
  datatype Actor = Actor(id: UserId, roles: set<RoleId>, isAdmin: bool)

  /** Flash-message severities. */
  datatype Severity = Notice | Ok | Warning | Error

  datatype Route = Index | Edit(user: UserId)

  /**
   * How an action ends: rendering its view, or a redirect or forward, each
   * of which stops the action. `Refused` stands for the framework rejecting
   * the request (argument mapping or validation) before the action runs.
   */
  datatype Response = Render | Redirect(route: Route) | Forward(route: Route) | Refused

  datatype Outcome = Outcome(response: Response, severity: Option<Severity>)

  /** The persisted users after an action, and how the action ended. */
  datatype Step = Step(users: Users, outcome: Outcome)

  /**
   * The injected services, as values: the policy's roles, whether a role set
   * is granted the privilege target of this module, the authentication
   * manager's provider names, and the user service's default provider.
   */
  datatype Environment = Environment(
    policyRoles: set<RoleId>,
    grantsModuleAccess: set<RoleId> -> bool,
    providerNames: set<string>,
    defaultProvider: string)
}
