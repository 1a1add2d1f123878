# Neos user administration: authorization model

This project models the decision rules of the Neos backend's user-administration
module controller (`UsersController`) and proves properties about them.

The controller is mostly glue around injected services. Its decision rules are small:

- **Edit permission.** An administrator may edit anyone. Anyone else may act on a
  user only if that user's primary-account roles are a subset of their own.
- **Create permission.** Every requested role must be one of the actor's own roles.
  There is no administrator bypass.
- **Self-deletion guard.** A user cannot delete their own user.
- **Self-lockout guard.** On their own account, a user is refused a role set that
  would lose access to this module.
- **Blank-password rule.** A blank password on account update keeps the stored credential.

The model:

- **Users.** A map from user id (the account identifier) to a `User`. Each user has
  a profile (name and electronic addresses) and one primary `Account` (provider,
  role identifiers, credential).
- **Actor.** The acting user: id, roles, and an administrator flag. `CurrentActor`
  derives them as `initializeAction` does.
- **Actions.** Each action is a pure function from users, actor and arguments to a
  `Step`: the users afterwards, plus an `Outcome`. The outcome is render,
  redirect or forward, with a flash-message severity.
- **Early exit.** A redirect or forward stops the action, so every denial returns
  the users unchanged.
- **Roles.** Compared by identifier string, like PHP's `array_diff`.
- **Services.** The policy roles, the module-access privilege check, the provider
  names and the default provider are fields of `Environment`. The privilege check
  is an arbitrary function, so nothing is assumed about it.
- **Provider list.** `ProviderOrder` sorts the authentication-provider names.
- **Requests.** `Requests` chains the mutating actions over a sequence of requests
  by one user.

`createAction` applies the role restriction to every actor, administrators
included: it never reads the administrator flag. `isEditingAllowed` is the only
rule with an administrator bypass. `ControllerProperties.CreateHasNoAdministratorBypass`
proves this, and `ControllerProperties.AdministratorMayBeRefusedOfferedRole` shows
the consequence.

## Model

| member | source | states |
|---|---|---|
| Roles.ArrayDiff | Classes/Controller/Module/Administration/UsersController.php:161 | the result holds exactly the submitted identifiers that are not held; it is empty exactly when every identifier is held |
| Roles.AllInIffSubset | Classes/Controller/Module/Administration/UsersController.php:161 | every submitted identifier is held exactly when the set of submitted roles is a subset of the held roles |
| Roles.EmptyDifferenceIffSubset | Classes/Controller/Module/Administration/UsersController.php:398 | `count(array_diff(A, B)) === 0` on role sets is exactly `A ⊆ B` |
| PhpStrings.TrimLeft | Classes/Controller/Module/Administration/UsersController.php:278 | the result is a suffix of the input; what was stripped is all trim characters; the result does not start with one |
| PhpStrings.TrimRight | Classes/Controller/Module/Administration/UsersController.php:278 | the result is a prefix of the input; what was stripped is all trim characters; the result does not end with one |
| PhpStrings.Trim | Classes/Controller/Module/Administration/UsersController.php:278 | the result is the input with a blank prefix and a blank suffix removed, and it neither starts nor ends with a character `trim` strips |
| PhpStrings.TrimIsInfix | Classes/Controller/Module/Administration/UsersController.php:278 | some slice `s[i..j]` is the trimmed string, with `s[..i]` and `s[j..]` blank |
| PhpStrings.TrimBounds | Classes/Controller/Module/Administration/UsersController.php:278 | the trimmed string is exactly the slice between the prefix `ltrim` strips and the suffix `rtrim` strips, both blank |
| PhpStrings.TrimEmptyIffBlank | Classes/Controller/Module/Administration/UsersController.php:278 | `strlen(trim($p)) > 0` holds exactly when `$p` has a character other than space, tab, LF, CR, NUL or vertical tab |
| ProviderOrder.BelowTotal | Classes/Controller/Module/Administration/UsersController.php:371 | any two provider names are comparable under the string order `sort` uses |
| ProviderOrder.BelowAntisymmetric | Classes/Controller/Module/Administration/UsersController.php:371 | two names that sort no later than each other are equal |
| ProviderOrder.BelowTransitive | Classes/Controller/Module/Administration/UsersController.php:371 | the string order is transitive |
| ProviderOrder.BelowReflexive | Classes/Controller/Module/Administration/UsersController.php:371 | every name sorts no later than itself |
| ProviderOrder.Least | Classes/Controller/Module/Administration/UsersController.php:371 | returns a member of the set that sorts no later than every member |
| ProviderOrder.SortNames | Classes/Controller/Module/Administration/UsersController.php:370-371 | the result is strictly ascending and holds each provider name exactly once |
| ProviderOrder.AuthenticationProviders | Classes/Controller/Module/Administration/UsersController.php:368-373 | the options are the provider names in strictly ascending order, each exactly once, each mapped to itself |
| UsersController.CurrentActor | Classes/Controller/Module/Administration/UsersController.php:86-88 | the actor carries the roles of their primary account, and is an administrator exactly when those roles hold `Neos.Neos:Administrator` |
| UsersController.IsEditingAllowed | Classes/Controller/Module/Administration/UsersController.php:391-399 | always true for an administrator; otherwise true exactly when the target's primary-account roles are a subset of the actor's |
| UsersController.AllowedRoles | Classes/Controller/Module/Administration/UsersController.php:381-385 | an administrator is offered every policy role; anyone else only their own roles |
| UsersController.EditAction | Classes/Controller/Module/Administration/UsersController.php:177-191 | the edit form renders exactly when editing is allowed; otherwise the actor is sent to the list with an error |
| UsersController.SubmittedPassword | Classes/Controller/Module/Administration/UsersController.php:277 | the first submitted value, or a blank string when nothing was submitted |
| UsersController.CreateAction | Classes/Controller/Module/Administration/UsersController.php:153-169 | the new user is added exactly when the requested roles are a subset of the actor's roles, with those roles, the first password and the named or default provider; otherwise nothing changes and an error is reported; existing users are untouched; always a redirect to the list |
| UsersController.UpdateAction | Classes/Controller/Module/Administration/UsersController.php:199-208 | when editing is denied nothing changes and the actor gets an error; otherwise only the target's profile is replaced, and its account and all other users stay the same |
| UsersController.DeleteAction | Classes/Controller/Module/Administration/UsersController.php:216-229 | the acting user is never removed; the target is removed exactly when editing is allowed and it is not the actor; no other user changes; the severity is error, warning or notice for the three branches |
| UsersController.UpdateAccountAction | Classes/Controller/Module/Administration/UsersController.php:260-285 | denied: nothing changes, redirect to the list; self-lockout: nothing changes, forward to the actor's edit form with a warning; otherwise the roles become exactly the submitted ones, the credential changes exactly when the submitted password is not blank, and the result is a redirect to the target's edit form; the profile, provider and all other users never change |
| UsersController.UpdateAccountActionChecked | Classes/Controller/Module/Administration/UsersController.php:282 | submitted roles outside the offered roles are refused with nothing changed; otherwise it behaves exactly as `UpdateAccountAction`; no account ends with roles outside the offered roles unless they are unchanged |
| UsersController.CreateElectronicAddressAction | Classes/Controller/Module/Administration/UsersController.php:307-319 | when editing is allowed, the target's addresses gain exactly the new address, followed by a redirect to its edit form; otherwise nothing changes; the name, the account and other users never change |
| UsersController.DeleteElectronicAddressAction | Classes/Controller/Module/Administration/UsersController.php:328-339 | when editing is allowed, the target's addresses lose exactly that address, followed by a redirect to its edit form; otherwise nothing changes; the name, the account and other users never change |
| ControllerProperties.EditorExamples | Classes/Controller/Module/Administration/UsersController.php:396-398 | an actor with {Editor} may not edit a user with {Editor, Administrator}, and may edit a user with {Editor} |
| ControllerProperties.ActorMayEditSelf | Classes/Controller/Module/Administration/UsersController.php:86-88 | the actor, as initialised for the request, may always edit their own user |
| ControllerProperties.CreateHasNoAdministratorBypass | Classes/Controller/Module/Administration/UsersController.php:160-161 | `createAction` gives the same result whatever the administrator flag is |
| ControllerProperties.OfferedRolesAcceptedForNonAdministrator | Classes/Controller/Module/Administration/UsersController.php:381-385 | a non-administrator who requests only roles from the offered list gets the user created |
| ControllerProperties.AdministratorMayBeRefusedOfferedRole | Classes/Controller/Module/Administration/UsersController.php:160-168 | an administrator is offered every policy role, yet requesting one their account lacks leaves the users unchanged |
| ControllerProperties.NonAdministratorDeleteIff | Classes/Controller/Module/Administration/UsersController.php:216-228 | for a non-administrator, a delete removes the target exactly when its roles are a subset of the actor's and it is someone else |
| ControllerProperties.AdministratorDeletesAnyOther | Classes/Controller/Module/Administration/UsersController.php:216-228 | an administrator's delete of any other user removes exactly that user |
| ControllerProperties.BlankPasswordKeepsCredential | Classes/Controller/Module/Administration/UsersController.php:277-280 | a missing or whitespace-only password leaves the stored credential unchanged on every path of the account update |
| ControllerProperties.NonBlankPasswordStored | Classes/Controller/Module/Administration/UsersController.php:277-280 | once the guards pass, a password that is not blank is stored untrimmed |
| ControllerProperties.NoSelfLockout | Classes/Controller/Module/Administration/UsersController.php:267-276 | an actor whose roles grant access to the module still has a role set that grants it after updating their own account |
| ControllerProperties.UpdateAccountIdempotent | Classes/Controller/Module/Administration/UsersController.php:260-285 | submitting the same account update twice leaves the users as one submission does |
| ControllerProperties.SelfEscalationAsWritten | Classes/Controller/Module/Administration/UsersController.php:282 | a non-administrator editor who updates their own account with the administrator role ends up holding it, though it was not offered to them |
| ControllerProperties.CheckedUpdateNeverEscalates | Classes/Controller/Module/Administration/UsersController.php:381-385 | with the role restriction, a non-administrator's account update leaves the target's roles unchanged or within the actor's roles |
| ControllerProperties.CreateThenDeleteElectronicAddress | Classes/Controller/Module/Administration/UsersController.php:314-334 | deleting an address just added restores the users exactly |
| Requests.Handle | Classes/Controller/Module/Administration/UsersController.php:86-88 | the acting user, recomputed for each request, is still present after the request; a request refused by validation changes nothing |
| Requests.Run | Classes/Controller/Module/Administration/UsersController.php:222-225 | the acting user survives any sequence of their own requests (the as-written account update removes no user either, so this does not depend on the role restriction) |
| Requests.HandleStaysWithinActorRoles | Classes/Controller/Module/Administration/UsersController.php:160-168 | after one request by a non-administrator, every user holds only the actor's roles or still holds exactly the roles it had |
| Requests.NonAdministratorCannotEscalate | Classes/Controller/Module/Administration/UsersController.php:282 | after any sequence of requests by a non-administrator, every user holds only the actor's original roles or still holds exactly its original roles, and the actor never becomes an administrator |

## Findings

| source | as written | input that shows it | evidently intended | confidence | as-written member | corrected member |
|---|---|---|---|---|---|---|
| Classes/Controller/Module/Administration/UsersController.php:282 | `updateAccountAction` assigns the submitted role identifiers without comparing them to the actor's roles | a non-administrator with roles {Neos.Neos:Editor} updates their own account with [Neos.Neos:Editor, Neos.Neos:Administrator], and the module privilege is granted for that set; the account then holds Neos.Neos:Administrator | only roles the edit form offers (`getAllowedRoles`) may be assigned, as `createAction` restricts creation | medium, not executed | ControllerProperties.SelfEscalationAsWritten | UsersController.UpdateAccountActionChecked |

`UsersController.UpdateAccountAction` is the code as written. `UsersController.UpdateAccountActionChecked`
refuses out-of-range roles the same way other denials are refused: error severity,
redirect to the list, nothing changed. `Requests.Handle` uses the checked version.
`Requests.NonAdministratorCannotEscalate` is the property it restores.

## Left out

- Classes/TYPO3/Neos/Controller/Backend/BackendController.php: a pass-through. It redirects to the redirection service's URI or a login default, and serves cached translation JSON.
- `initializeAction` property-mapping configuration and title translation (lines 70-85): framework wiring.
- `indexAction`, `showAction`: view assignment only. Their one decision is `isEditingAllowed`, modelled by `UsersController.IsEditingAllowed`.
- `newAction` (lines 135-143): view assignment only. The values it assigns come from `getAllowedRoles` and `getAuthenticationProviders`, modelled by `UsersController.AllowedRoles` and `ProviderOrder.AuthenticationProviders`.
- `editAccountAction` (lines 237-249): the same guard as `editAction` after a user lookup by account, so `UsersController.EditAction` covers its decision.
- `newElectronicAddressAction` and `assignElectronicAddressOptions`: view assignment and translation lookups.
- Flash-message texts, codes and `htmlspecialchars` escaping. Only severities are modelled. The undefined `$username` at line 180 only affects message text.
- Validators. The `@Flow\Validate` annotations on `createAction` (lines 153-155) become `CreateArgumentsValid`: a non-empty, unused username and a submitted password. `PasswordValidator` is not part of this model, so its length and confirmation checks are not modelled, for create or for account update.
- `PolicyService::getRole` on an unknown identifier (line 270): the model accepts any identifier string rather than failing.
- Role inheritance: `hasRole` is plain membership of identifiers.
- Multiple accounts per user. Only the primary account exists, so updating a secondary account (whose roles are not the ones `isEditingAllowed` compares) is not modelled.
- `UserService::getUser` returning no user for an account: the account-update and edit actions require the target user to exist.
- Password hashing: the credential is stored as the submitted string.
- ProviderOrder.Below: PHP's `sort` compares numeric strings as numbers. The model compares provider names character by character only, as it does for non-numeric names.
- Persistence of property-mapped changes to a `User` argument on a denied request: this is framework behaviour.
- Electronic addresses have no identity: they are values in a set, so two equal addresses collapse into one. In the framework each request maps a new address entity, and `addElectronicAddress` appends it.
- The privilege manager's policy evaluation is the opaque function `Environment.grantsModuleAccess`.
