/**
 * Properties of the user-administration actions that relate several calls
 * or several actions.
 */
module ControllerProperties {
  import opened Roles
  import opened PhpStrings
  import opened Domain
  import opened UsersController

  /** An {Editor} actor against an {Editor, Administrator} target and against an {Editor} target. */
  lemma EditorExamples()
    ensures var editor := Actor("ed", {"Neos.Neos:Editor"}, false);
            var admin := User(Profile("Admin", {}), Account("Neos.Neos:Backend", {"Neos.Neos:Editor", Administrator}, "x"));
            var peer := User(Profile("Peer", {}), Account("Neos.Neos:Backend", {"Neos.Neos:Editor"}, "y"));
            !IsEditingAllowed(editor, admin) && IsEditingAllowed(editor, peer)
  {
  }

  /** The acting user, as `initializeAction` determines them, may always edit their own user. */
  lemma ActorMayEditSelf(users: Users, id: UserId)
    requires id in users
    ensures IsEditingAllowed(CurrentActor(users, id), users[id])
  {
  }

  /**
   * The administrator flag plays no part in `createAction`: only the actor's
   * own roles decide.
   */
  lemma CreateHasNoAdministratorBypass(users: Users, env: Environment, actor: Actor, username: UserId,
                                       password: seq<string>, profile: Profile, roleIds: seq<RoleId>,
                                       provider: Option<string>)
    requires CreateArgumentsValid(users, username, password)
    ensures CreateAction(users, env, actor, username, password, profile, roleIds, provider)
         == CreateAction(users, env, actor.(isAdmin := !actor.isAdmin), username, password, profile, roleIds, provider)
  {
  }

  /** A non-administrator who picks only roles offered by the form gets the user created. */
  lemma OfferedRolesAcceptedForNonAdministrator(users: Users, env: Environment, actor: Actor, username: UserId,
                                                password: seq<string>, profile: Profile, roleIds: seq<RoleId>,
                                                provider: Option<string>)
    requires CreateArgumentsValid(users, username, password)
    requires !actor.isAdmin
    requires AllIn(roleIds, AllowedRoles(env, actor))
    ensures username in CreateAction(users, env, actor, username, password, profile, roleIds, provider).users
  {
  }

  /**
   * An administrator is offered every policy role, but asking for one their
   * own account lacks gets the creation refused.
   */
  lemma AdministratorMayBeRefusedOfferedRole(users: Users, env: Environment, actor: Actor, username: UserId,
                                             password: seq<string>, profile: Profile, role: RoleId,
                                             provider: Option<string>)
    requires CreateArgumentsValid(users, username, password)
    requires actor.isAdmin && role in env.policyRoles && role !in actor.roles
    ensures role in AllowedRoles(env, actor)
    ensures CreateAction(users, env, actor, username, password, profile, [role], provider).users == users
  {
  }

  /** For a non-administrator, a delete removes the target exactly when the role rule allows it and it is someone else. */
  lemma NonAdministratorDeleteIff(users: Users, actor: Actor, target: UserId)
    requires target in users && !actor.isAdmin
    ensures var r := DeleteAction(users, actor, target);
            target !in r.users <==> users[target].account.roles <= actor.roles && target != actor.id
  {
  }

  /** An administrator deletes every user other than themselves. */
  lemma AdministratorDeletesAnyOther(users: Users, actor: Actor, target: UserId)
    requires target in users && actor.isAdmin && target != actor.id
    ensures DeleteAction(users, actor, target).users == users - {target}
  {
  }

  /** A blank or missing password never changes the stored credential, whichever branch is taken. */
  lemma BlankPasswordKeepsCredential(users: Users, env: Environment, actor: Actor, target: UserId,
                                     roleIds: seq<RoleId>, password: seq<string>)
    requires target in users
    requires |password| == 0 || |Trim(password[0])| == 0
    ensures UpdateAccountAction(users, env, actor, target, roleIds, password).users[target].account.password
         == users[target].account.password
  {
  }

  /** A password with a character `trim` keeps is stored as submitted, untrimmed, once the guards pass. */
  lemma NonBlankPasswordStored(users: Users, env: Environment, actor: Actor, target: UserId,
                               roleIds: seq<RoleId>, password: seq<string>)
    requires target in users
    requires IsEditingAllowed(actor, users[target]) && !LocksOut(env, actor, target, roleIds)
    requires |password| > 0 && |Trim(password[0])| > 0
    ensures UpdateAccountAction(users, env, actor, target, roleIds, password).users[target].account.password
         == password[0]
  {
  }

  /**
   * Whatever is submitted, the acting user keeps access to this module if
   * they had it: their own roles change only to a set that is granted it.
   */
  lemma NoSelfLockout(users: Users, env: Environment, actor: Actor, roleIds: seq<RoleId>, password: seq<string>)
    requires actor.id in users
    requires env.grantsModuleAccess(users[actor.id].account.roles)
    ensures env.grantsModuleAccess(UpdateAccountAction(users, env, actor, actor.id, roleIds, password).users[actor.id].account.roles)
  {
  }

  /** Submitting the same account update twice leaves the users as one submission does. */
  lemma UpdateAccountIdempotent(users: Users, env: Environment, actor: Actor, target: UserId,
                                roleIds: seq<RoleId>, password: seq<string>)
    requires target in users
    ensures var once := UpdateAccountAction(users, env, actor, target, roleIds, password).users;
            UpdateAccountAction(once, env, actor, target, roleIds, password).users == once
  {
  }

  /**
   * As written, a non-administrator editor can give their own account the
   * administrator role: no rule compares the submitted roles with theirs.
   */
  lemma SelfEscalationAsWritten()
    ensures var editor := User(Profile("Ed", {}), Account("Neos.Neos:Backend", {"Neos.Neos:Editor"}, "secret"));
            var users := map["ed" := editor];
            var actor := CurrentActor(users, "ed");
            var env := Environment({"Neos.Neos:Editor", Administrator}, roles => true, {"Neos.Neos:Backend"}, "Neos.Neos:Backend");
            var r := UpdateAccountAction(users, env, actor, "ed", ["Neos.Neos:Editor", Administrator], []);
            && !actor.isAdmin
            && Administrator !in AllowedRoles(env, actor)
            && Administrator in r.users["ed"].account.roles
  {
  }

  /** With the role restriction, a non-administrator never assigns a role they do not hold. */
  lemma CheckedUpdateNeverEscalates(users: Users, env: Environment, actor: Actor, target: UserId,
                                    roleIds: seq<RoleId>, password: seq<string>)
    requires target in users && !actor.isAdmin
    ensures var r := UpdateAccountActionChecked(users, env, actor, target, roleIds, password);
            r.users[target].account.roles == users[target].account.roles
            || r.users[target].account.roles <= actor.roles
  {
  }

  /** Deleting an address just added restores the users as they were. */
  lemma CreateThenDeleteElectronicAddress(users: Users, actor: Actor, target: UserId, address: ElectronicAddress)
    requires target in users
    requires address !in users[target].profile.addresses
    ensures var added := CreateElectronicAddressAction(users, actor, target, address).users;
            DeleteElectronicAddressAction(added, actor, target, address).users == users
  {
  }
}
