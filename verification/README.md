# scoped_access, modelled and proved

`scoped_access` is a Django library for hierarchical authorization. Users receive roles on nodes of a
hierarchy, and a role covers everything below its node. Authority can be delegated under guards that stop
anyone from granting more than they hold, decisions are memoized inside one request, and sensitive actions
ask for a short-lived step-up token. This project states what those four parts promise and proves it over
all configurations, all objects, all runs and all interleavings.

## What is modelled

**Decisions and filters** (`host`, `hierarchy`, `ancestry`, `engine`, `decisions`, `filters`,
`filter_agreement`, `skipped_level`, `accessor_safety`, `misaligned_accessor`, `checks`). The same question is
answered twice: by walking up from one object, and by a relational filter that climbs a fixed number of
accessors computed from level ranks and compares bare keys. Host rows, relations and columns are one immutable
value; query expressions are a datatype with an evaluator. Whatever rows a host has, the filter keeps only what
the decision allows exactly when every accessor is a run of parent steps onto the previous level's model; the
condition is on configuration and declared relations, and is proved necessary as well as sufficient. Over
accessors that levels of one model share, the filter also keeps all that the decision allows exactly when every
level node above the object's anchor is as many steps up as the ranks say; in a layered world, the one `conf.py`
documents, it always is.

**Decisions in terms of the tables** (`membership`, `access`). Which level a row plays is read off its columns,
and who is allowed what on which object off the assignment and role rows, the configured levels, the anchors and
the ancestors; the decision the engine makes is proved equal to that, for every object and every instant.

**Operations in terms of the tables** (`entitlement`, `effects`). For each managed operation, exactly when it is
performed: what the request must look like and which rows its actor must have; and what it then stores, and what
that gives or takes from whom over all later runs.

**Delegation and lifecycle** (`authority`, `delegation`, `interleaving`, `owner_moves`, `lifecycle`, `guards`,
`store`, `torn_read`). The authority tables are a value; every managed operation is a specification function on it.
`store` holds the in-memory instances and tables as classes whose methods are proved against those functions,
failing signal receivers and rollback included. Under the policy "self", over any run by actors that are not
superusers and whose owner moves are harmless, no (permission, node) pair is ever conferred that was not
conferred before; `interleaving` proves the same when an operation reads its actor's rows at one moment, their
roles' permissions at a later one and writes at a later one still, with nothing locked in between but the role
it changes, and `torn_read` shows the one owner move that must not fall between the two reads. An owner move is harmless, exactly, when the next owner lies in
the former owner's subtree or the role carries at most the one permission that managing it at the next owner
asks for.

**Request cache** (`request_cache`, `request_moment`, `request_scope`). One connection is a stack of blocks
(atomic blocks with their snapshots and commit hooks, request blocks, inner request blocks), a store and a dirty
flag. `Context` is the imperative form. Alone on the tables, a read through the store equals a fresh read after
every properly nested run. With other requests committing, a whole decision, rows and verdicts together, is the
one a fresh read would have given at a single moment since the outermost request block was entered; after an
invalidation in the same transaction it is that of this instant.

**Step-up tokens** (`reauth`, `reauth_single_use`, `reauth_window`, `reauth_generation`, `reauth_service`,
`reauth_reachable`). Issuers, consumers and invalidators are processes with program counters that take single
cache operations in any interleaving while time passes and entries are evicted. `reauth_service` holds the
code as it runs without interruption and ties each method to the same steps taken in a row;
`reauth_reachable` shows that its promises hold in every state those interleavings reach.

**Views** (`drf`). Policy trees, the permissions a view requires, the list queryset and the write guard.

## Where code and documentation differ

- The library's own documentation allows a node's parent at any strictly higher level; the filters assume the
  previous modeled level (`scoped_access/conf.py:16-17`). `SkippedLevel.FilterHidesAnAllowedObject` gives a
  configuration the startup checks accept in which a document is allowed by the decision and hidden by the
  filter. `FilterAgreement.FilterAgreesExactlyWhenHeightsMatch` and
  `FilterAgreement.AccessibleAgreesExactlyWhenHeightsMatch` give the exact condition.
- The startup checks do not look at where an accessor lands (`scoped_access/checks.py:75-86`), and the filters
  compare keys without regard to the model they belong to (`scoped_access/engine.py:351-354`). So an accessor
  that reaches past the previous level makes the filter list what the decision refuses:
  `MisalignedAccessor.FilterListsARefusedObject` is a configuration on which no modelled rule reports anything.
  `AccessorSafety.FilterIsSafeExactlyWhenClimbsAreWalks` gives the exact condition. That levels of one model
  share one accessor (`scoped_access/registry.py:66-75`) is enough, with landing on the previous level, but not
  necessary: `MisalignedAccessor.TwoStepsAreSafe`.
- The missing-accessor rule E003 is not evaluated for a level whose model cannot be loaded
  (`scoped_access/checks.py:56-63`), so silence of E001, E002 and E003 does not make every path defined.
  `Checks.UnloadableLevelHidesMissingParent` is such a configuration: only E006 is reported and the path up
  from the lower level is undefined. `Checks.SilentRulesAcceptExactlyWhen` gives the exact condition: with
  those three rules silent, every path is defined if and only if the levels whose models do not load declare
  their parents too, which `Checks.SilentRulesMakeClimbsTotal` concludes whenever E006 is silent as well.
- Moving a role re-checks manage rights only (`scoped_access/services.py:37-49`).
  `OwnerMoves.OtherMovesAmplify` shows that every move that is not harmless amplifies in some sound state.
- Permissions of an actor's roles are read after the rows themselves (`scoped_access/engine.py:178-185`). If an
  owner is narrowed and the role then extended in between, the two reads make up a right nobody had:
  `TornRead.NarrowedRoleTearsRead`.
- A refused transition leaves only the status of the instance in step with the row
  (`scoped_access/models.py:515-522`). The instance is entirely in step after `suspend`, `reactivate` and
  `revoke` only because they reload first.
- Whether window mode elects one fresh consumer depends on time: it does exactly when no consumer takes more
  than the token lifetime between its validity check and its mark.

## Model

| member | source | states |
|---|---|---|
| HostModel.FollowPath | scoped_access/engine.py:35-40 | the loop reaches the object at the end of the path, and nothing as soon as one relation is null |
| HostModel.FollowJoined | scoped_access/engine.py:307-309 | following a joined accessor is following its parts one after the other, nulls included |
| HostModel.FollowLands | scoped_access/checks.py:13-29 | a path can only end on an object of the model it statically lands on |
| Hierarchy.ByName | scoped_access/registry.py:43-51 | finds a level of that name if and only if there is one |
| Hierarchy.LastOfNameWins | scoped_access/registry.py:43-51 | when a name repeats, it finds the last level that has it |
| Hierarchy.IndexOf | scoped_access/registry.py:53-55 | the first position holding the level |
| Hierarchy.RankIsPosition | scoped_access/registry.py:53-55 | with unique names a rank belongs to one name and is the position of that name, both directions |
| Hierarchy.UpPathJoins | scoped_access/engine.py:307-309 | a climb is the join of the accessors of the ranks climbed |
| Hierarchy.UpPathTotal | scoped_access/engine.py:307-309 | under an accepted configuration every climb between modeled ranks is defined and uses exactly one declared accessor for each rank |
| Hierarchy.ClimbPath | scoped_access/engine.py:307-309 | the loop builds that path |
| Ancestry.IterAncestors | scoped_access/engine.py:58-64 | terminates on every forest; the chain holds the node and its ancestors in order, all of them and nothing else |
| Ancestry.StepsAdd | scoped_access/engine.py:58-64 | walks compose |
| Ancestry.AncestryTransitive | scoped_access/engine.py:159-170 | an ancestor of an ancestor is an ancestor |
| Ancestry.GroundedHasNoCycle | scoped_access/engine.py:58-64 | a walk that ends never returns to its start |
| Ancestry.AncestryAntisymmetric | scoped_access/engine.py:159-170 | of two different nodes at most one is above the other |
| Ancestry.HeightIsUnique | scoped_access/engine.py:307-309 | an ancestor sits at one height only |
| Ancestry.RankDecreasingIsForest | scoped_access/engine.py:58-64 | if some ranking decreases towards the parent, every ancestor walk terminates |
| Ancestry.FirstStep | scoped_access/engine.py:58-64 | the walk from a node is one parent step and then the walk from there |
| Ancestry.ParentStepsFindAncestors | scoped_access/registry.py:66-75 | the end of a path made of the models' own accessors is an ancestor |
| Ancestry.ClimbFindsAncestor | scoped_access/engine.py:307-309 | where accessors are made of such steps and land on the previous level's model, whatever a join path finds is an ancestor, of the model of the level climbed to |
| Ancestry.AlignedClimbsAreWalks | scoped_access/registry.py:66-75 | shared accessors that land on the previous level's model are such accessors |
| Ancestry.ClimbIsWalk | scoped_access/registry.py:66-75 | over shared accessors the join path from one rank to another finds exactly the node that many parents up, and a node of that level's model |
| Engine.ReachesScope | scoped_access/engine.py:67-70 | a valid node assignment reaches exactly what has its scope as ancestor or self |
| Engine.CoverageIsDownward | scoped_access/engine.py:159-170 | what covers a node covers everything below it |
| Engine.CoverageIsNeverUpward | scoped_access/engine.py:159-170 | an assignment strictly below a node does not cover it |
| Engine.TenantContainment | scoped_access/engine.py:131-170 | what a custom role covers lies under the role's present owner, whatever the owner was when the role was granted |
| Engine.PermissionsStayInTheTenant | scoped_access/engine.py:221-250 | in every stored state, a permission on an anchored object comes from an ACTIVE row in its window whose role is a system role or has its present owner at or above the object's node |
| Membership.LevelGivenExactlyWhenPlayed | scoped_access/models.py:354-365 | a level asked for is granted if and only if the scope is a stored row of such a level's model none of whose discriminator columns disagrees |
| Membership.LevelInferredExactlyWhenOne | scoped_access/models.py:354-365 | a grant without a level stores the level the scope plays, if and only if it plays exactly one |
| Membership.DiscriminatorTellsLevels | scoped_access/registry.py:35-39 | where the levels of one model ask for different values of one column, a grant without a level stores the level whose value the row has |
| Membership.DisagreeingRowStaysOut | scoped_access/registry.py:35-39 | a row with a column that disagrees with a level is never granted at it, never valid at it and never stored as an owner at it |
| Membership.FilteredNodePlays | scoped_access/engine.py:368-377 | the node filter keeps a row only through a level none of whose columns disagrees |
| Membership.OwnerValidatedExactlyWhenFit | scoped_access/models.py:119-147 | an owner is accepted if and only if it exists and plays an allowed level, the level left out only where it plays no other |
| Membership.OwnersSitAtAllowedLevels | scoped_access/models.py:147-148 | in every reachable state the owner of a custom role exists and plays the level stored with it, which is one that may own roles |
| Access.ValidExactlyWhenFits | scoped_access/engine.py:73-156 | a row is judged valid if and only if its columns fit the configuration and its scope lies at or below its role's owner |
| Access.EffectiveExactlyWhen | scoped_access/engine.py:188-214 | the rows used at an instant are exactly the user's ACTIVE ones, from `valid_from` on and before `valid_until`, each with its role |
| Access.AllowedExactlyWhen | scoped_access/engine.py:221-250 | `has_perm` holds if and only if the user is an active superuser, or active with a counting row whose role carries the permission and which reaches the object: node, anchored, unanchored, global, unregistered |
| Access.AllowedSomewhereExactlyWhen | scoped_access/engine.py:221-250 | without an object, any counting row will do |
| Access.CoveredExactlyWhen | scoped_access/engine.py:253-274 | the same for `user_covers`, with what is open to all |
| Access.ParentIsByFirstAccessor | scoped_access/registry.py:66-75 | a model's accessor is that of the first level of the model to declare one |
| Access.NoAccessorNoParent | scoped_access/registry.py:66-75 | and there is none if and only if no level of the model declares one |
| Decisions.RoleIsAssignable | scoped_access/engine.py:449-468 | true exactly for a system role, or for a node of the named level inside the owner's subtree |
| Decisions.AssignmentIsValid | scoped_access/engine.py:131-156 | true exactly when the stored scope shape is valid and a custom role still fits it |
| Decisions.ScopeIsAbove | scoped_access/engine.py:159-170 | true exactly when some ancestor or self is the assignment's node |
| Decisions.UserPermissions | scoped_access/engine.py:221-242 | the set is exactly the permissions of the valid rows that cover the object, for each of the four anchor outcomes |
| Decisions.HasPermission | scoped_access/engine.py:245-250 | inactive users hold nothing, active superusers everything, others what a covering row gives |
| Decisions.UserCoversObject | scoped_access/engine.py:253-274 | true exactly when some effective valid assignment covers the object, or the object is global |
| Filters.AnchoredClimb | scoped_access/engine.py:419-422 | anchor and climb as one join is climbing from the anchor node |
| Filters.AccessibleNodes | scoped_access/engine.py:327-355 | under every accepted configuration the query keeps exactly the nodes whose climb ends on the key of a valid assignment; an unknown or root level is an error |
| Filters.NodeFilter | scoped_access/engine.py:368-377 | the union over the levels of a model keeps a row exactly when one of its levels does |
| Filters.AnchoredAlternatives | scoped_access/engine.py:415-422 | one assignment's alternatives keep exactly the objects whose anchor climbs to its key from some level of the anchor's model |
| Filters.AnchoredFilter | scoped_access/engine.py:404-423 | the loop keeps what some valid row carrying the permission selects; a root row keeps everything |
| Filters.ScopeFilter | scoped_access/engine.py:380-423 | under every accepted configuration, for node, superuser, global, unregistered (strict and legacy) and anchored models, the query matches exactly what the specification of the filter keeps, whatever the accessors land on |
| FilterAgreement.ClimbFindsScope | scoped_access/engine.py:351-354 | over shared accessors comparing the key finds the assignment's scope at the rank distance and no row of another model with an equal key |
| FilterAgreement.AccessibleIsAllowed | scoped_access/engine.py:327-355 | where accessors are parent steps onto the previous level's model, a node the built query keeps is one `has_perm` allows, whatever levels the parents skip |
| FilterAgreement.FilterIsSound | scoped_access/engine.py:380-423 | under the same condition the built query never keeps an object the per-object decision refuses |
| FilterAgreement.FilterIsDecision | scoped_access/engine.py:380-423 | where heights match ranks, an object of a non-node model is kept if and only if `has_perm` allows it, or without a permission `user_covers` does; null anchors, root scopes, multi-hop anchors, shared models and superusers included |
| FilterAgreement.AccessibleIsDecision | scoped_access/engine.py:327-355 | over shared accessors, where heights match ranks, the nodes the built query keeps in a level are exactly the allowed ones |
| FilterAgreement.AgreementForcesHeights | scoped_access/engine.py:307-309 | agreement for all users forces matching heights above the anchor |
| FilterAgreement.FilterAgreesExactlyWhenHeightsMatch | scoped_access/engine.py:380-423 | filter and decision agree on an anchored object for all users if and only if heights match ranks above its anchor |
| FilterAgreement.AccessibleAgreesExactlyWhenHeightsMatch | scoped_access/engine.py:327-355 | the same if-and-only-if for the nodes of one level |
| FilterAgreement.LayeredHeights | scoped_access/conf.py:16-17 | where every parent is one modeled level up, the ancestor `d` steps up is a node of the level `d` ranks up |
| FilterAgreement.LayeredWorldAgrees | scoped_access/conf.py:16-17 | in that world filter and decision agree for every user, permission and object, node models included |
| SkippedLevel.FilterHidesAnAllowedObject | scoped_access/engine.py:307-309 | an accepted configuration with one skipped level in which `has_perm` allows an object and the filter leaves it out |
| AccessorSafety.UnsafeAccessorShows | scoped_access/engine.py:351-354 | for every valid accessor that is not a run of parent steps onto the previous level's model, some host over the same relations has an object the filter keeps and the decision refuses |
| AccessorSafety.FilterIsSafeExactlyWhenClimbsAreWalks | scoped_access/engine.py:307-423 | under every accepted configuration the filter keeps only what the decision allows, for all hosts, users, permissions and models, if and only if every accessor is such a run |
| MisalignedAccessor.FilterListsARefusedObject | scoped_access/checks.py:75-86 | a configuration on which no modelled rule reports anything, with a facility that the filter lists and `has_perm` refuses |
| MisalignedAccessor.TwoStepsAreSafe | scoped_access/registry.py:66-75 | levels of one model that do not share an accessor, and are safe all the same |
| Checks.WalkRelationPath | scoped_access/checks.py:13-29 | returns the model the path lands on, or the first segment after which it no longer walks |
| Checks.DistinctCount | scoped_access/checks.py:38-40 | the name count equals the distinct count exactly when no name repeats |
| Checks.CheckShape | scoped_access/checks.py:38-49 | E001 is reported exactly for repeated names, E002 exactly for a root level that is not first |
| Checks.CleanLevelsAreAccepted | scoped_access/checks.py:51-86 | levels are clean one by one exactly when parents are declared, models load and accessors walk |
| Checks.CheckLevel | scoped_access/checks.py:52-86 | one level: E006 exactly when its model does not load, and otherwise E003 exactly when it is past the first and has no parent, E007 exactly when its parent does not walk |
| Checks.CheckLevels | scoped_access/checks.py:51-86 | an error is reported exactly when some level's rules report it |
| Checks.CheckOwners | scoped_access/checks.py:88-96 | E004 exactly for the role owner levels that are no modeled level |
| Checks.CheckAnchors | scoped_access/checks.py:177-186 | E008 exactly for the anchors that are no relation path |
| Checks.CheckConfig | scoped_access/checks.py:32-186 | each rule reports exactly what it is for; the report is empty exactly when the hierarchy is accepted, models load, accessors and anchors walk, and owners sit at modeled levels |
| Checks.SilentRulesAcceptExactlyWhen | scoped_access/checks.py:38-73 | with E001, E002 and E003 silent, the hierarchy is accepted, and every path between modeled ranks defined, if and only if the levels whose models do not load declare their parents |
| Checks.SilentRulesMakeClimbsTotal | scoped_access/checks.py:38-73 | with E006 silent too, names decide ranks and every path joins exactly one declared accessor for each rank |
| Checks.UnloadableLevelHidesMissingParent | scoped_access/checks.py:56-63 | a configuration with E006 alone reported in which a path is undefined |
| Authority.GrantLevel | scoped_access/models.py:350-372 | with a scope and a level, accepted exactly when the scope is a stored row of a level of that name whose discriminator columns all agree; without a level, exactly when it plays one; without a scope, exactly for a root level or none |
| Guards.RootPermissions | scoped_access/engine.py:567-571 | exactly the permissions of the valid root rows |
| Guards.MayManageAssignment | scoped_access/engine.py:519-532 | true exactly when the guard holds; then the actor is active and a superuser, or has a valid row carrying `manage_assignments` at root or reaching the node |
| Guards.MayManageRole | scoped_access/engine.py:498-516 | true exactly when the owner resolves and the actor manages roles there, or global roles at root |
| Guards.Forbidden | scoped_access/models.py:191-196 | exactly the added permissions the actor may not delegate, under each policy |
| Guards.SeesRole | scoped_access/engine.py:435-446 | a custom role is visible exactly through an assignment covering its owner |
| Guards.MayAssignRole | scoped_access/engine.py:535-574 | assignable, visible and delegable in full at the target, under each policy |
| Entitlement.GrantedExactlyWhen | scoped_access/models.py:340-394 | `grant` is performed if and only if level and scope fit, the window is not empty, the role exists and may be put there, the grant does not stand already, and the actor is an active superuser or holds `manage_assignments` at or above the scope, sees the role's owner and may delegate its permissions, under each policy |
| Entitlement.TransitionedExactlyWhen | scoped_access/models.py:527-618 | a transition is performed if and only if the row's status allows it and the actor is an active superuser or holds `manage_assignments` at or above the scope, or at root when the scope is gone; a reactivation also asks what a grant asks |
| Entitlement.PermissionsAddedExactlyWhen | scoped_access/models.py:183-204 | when permissions may be added: role and owner exist, and the actor manages the owner's roles and may delegate what is new |
| Entitlement.PermissionsRemovedExactlyWhen | scoped_access/models.py:206-222 | when they may be removed: the same without delegation |
| Entitlement.RoleCreatedExactlyWhen | scoped_access/services.py:16-27 | when a role may be created: owner and level fit, the name is free there, and the actor manages the owner's roles and may delegate the permissions |
| Entitlement.RoleUpdatedExactlyWhen | scoped_access/services.py:29-57 | when it may be updated: the same for the next owner and name, and the actor manages the roles of the owner it leaves and of the one it goes to |
| Entitlement.RoleDeletedExactlyWhen | scoped_access/services.py:67-74 | when it may be deleted: the actor manages its owner's roles and no assignment uses it |
| Entitlement.RunKeepsOnNodes | scoped_access/models.py:350-372 | in every reachable state scopes and owners that still exist are nodes |
| Entitlement.PowerlessActorsChangeNothing | scoped_access/engine.py:498-574 | an inactive actor, and one who is no superuser and has no effective valid row, change nothing, whatever the request, the policy and the tables |
| Effects.GrantStoresTheRequest | scoped_access/models.py:350-394 | exactly one row is new; it names the requested user, role, scope, level and window and the acting grantor; no row and no role changes |
| Effects.GrantReachesTheGranteeOnly | scoped_access/models.py:389-394 | the grantee's ACTIVE rows gain that row, and every other user's are the same |
| Effects.GrantGivesAccess | scoped_access/engine.py:221-250 | inside the window an active grantee has every permission of the role on every object at or below the scope |
| Effects.GrantIsEffectiveExactlyInItsWindow | scoped_access/engine.py:208-214 | whatever operations follow, the granted row is effective at an instant if and only if it is still ACTIVE and the instant is at or after `valid_from` and before `valid_until`, where given |
| Effects.OutsideItsWindowARowIsUnused | scoped_access/models.py:332-338 | a row expired or not yet in force is in nobody's effective rows |
| Effects.TransitionChangesTheRow | scoped_access/models.py:564-618 | a performed transition leaves SUSPENDED, ACTIVE or REVOKED, a revocation records this actor, this instant and this reason, and nothing else changes |
| Effects.RevokedRowIsGoneForGood | scoped_access/models.py:601-618 | after a performed revocation, over every later run, the row is in nobody's rows and its record stands |
| Effects.SuspensionLastsUntilReactivation | scoped_access/models.py:564-575 | after a performed suspension the row is in nobody's rows until a performed reactivation of it |
| Effects.ReactivationGivesTheRowBack | scoped_access/models.py:577-599 | which gives it back to its user |
| Effects.PermissionEditsChangeTheRole | scoped_access/models.py:183-222 | an addition or removal changes that role's permissions, exactly as asked, and nothing else |
| Effects.RemovedPermissionNeedsAnotherRole | scoped_access/models.py:206-222 | after a removal a user holds a removed permission only through another role |
| Effects.CreationStoresTheRole | scoped_access/services.py:16-27 | a creation adds one role with the fields and permissions asked for |
| Effects.UpdateChangesTheFieldsNamed | scoped_access/services.py:40-45 | an update gives the role the fields named, keeps the others and its permissions |
| Effects.DeletionRemovesTheRole | scoped_access/services.py:67-74 | a deletion takes that role away and nothing else |
| Delegation.AssignableIsConferred | scoped_access/engine.py:535-574 | a row that an actor may put in force gives only what was already conferred at the same place |
| Delegation.AddedIsConferred | scoped_access/engine.py:471-495 | a permission an actor may add to a role was already conferred wherever valid rows of the role reach |
| Delegation.GrantAddsNothing | scoped_access/models.py:340-394 | a grant confers nothing new |
| Delegation.TransitionAddsNothing | scoped_access/models.py:564-618 | suspend, reactivate and revoke confer nothing new |
| Delegation.AddPermissionsAddsNothing | scoped_access/models.py:183-204 | a permission edit confers nothing new, on any row of the role |
| Delegation.RemovePermissionsAddsNothing | scoped_access/models.py:206-222 | removing permissions confers nothing new |
| Delegation.CreateRoleAddsNothing | scoped_access/services.py:16-27 | a role creation with its permissions confers nothing new |
| Delegation.UpdateRoleAddsNothing | scoped_access/services.py:29-57 | a role update whose owner move is harmless confers nothing new |
| Delegation.OperationKeepsSound | scoped_access/models.py:119-147 | every operation, by whomever and under every policy, keeps keys whole and owners on hierarchy nodes |
| Delegation.RunKeepsSound | scoped_access/models.py:119-147 | so does every run, from empty tables as well |
| Delegation.NoAmplification | scoped_access/engine.py:471-574 | under "self", over every run of managed operations by actors that are not superusers and with harmless owner moves, no (permission, target) pair is conferred that was not conferred at the start |
| Interleaving.OperationIsCheckThenWrite | scoped_access/models.py:340-394 | an operation is its read, its check and its write in one go |
| Interleaving.RefreshedRowsAreBacked | scoped_access/engine.py:178-185 | rows read at one moment and their roles' permissions read at a later one give nothing that was not conferred at the start |
| Interleaving.CheckBacks | scoped_access/models.py:374-386 | a check that passes on such rows ensures that the change will confer only what was conferred at the start |
| Interleaving.WriteIsSafe | scoped_access/models.py:507-525 | writing such a change, whatever was written since, confers nothing new |
| Interleaving.OthersStayBacked | scoped_access/models.py:173-181 | a write under another role's lock leaves a pending change as safe as it was |
| Interleaving.RowStaysBacked | scoped_access/engine.py:178-185 | whatever is written between the two reads, a row read earlier stays as safe as it was |
| Interleaving.InterleavedNoAmplification | scoped_access/models.py:173-181 | the same claim when any number of operations interleave between their two reads, check and write, one lock per role, no owner narrowed between the two reads of an actor who holds the role: nothing is conferred that was not conferred at the start, although actors may lose in between what they held |
| TornRead.NarrowedRoleTearsRead | scoped_access/engine.py:178-185 | for every harmless owner move that does not widen, two permitted operations between the reads show a user a permission on a node where it was never conferred |
| OwnerMoves.RunKeepsOwnersValidated | scoped_access/models.py:119-147 | in every reachable state a stored owner is validated at its level, so validating it again changes nothing |
| OwnerMoves.OtherMovesAmplify | scoped_access/services.py:37-49 | every validated owner move that is not harmless amplifies in some sound state, through the manage checks alone |
| OwnerMoves.NeverAmplifiesExactlyWhenHarmless | scoped_access/services.py:37-49 | under every policy a validated owner move can never amplify if and only if the next owner lies in the former owner's subtree, or the role carries at most `manage_roles` when it goes to an owner and at most `manage_global_roles` when it becomes a system role |
| Lifecycle.OperationsAreWrites | scoped_access/models.py:507-525 | every managed operation is at most one table write of three kinds |
| Lifecycle.HistoryIsPath | scoped_access/models.py:507-525 | under any interleaving of writes each row's history is a path of the state machine, no row is lost, identity, scope and window never change |
| Lifecycle.RevokedForGood | scoped_access/models.py:601-618 | a revoked row never changes again |
| Lifecycle.ConstraintsCoverEveryShape | scoped_access/models.py:624-650 | on the shapes that can be stored the three partial constraints, nulls distinct, forbid exactly two live rows with equal user, role, level and scope |
| Lifecycle.InsertKeepsSane | scoped_access/models.py:624-650 | a row that passes the three partial constraints keeps live grants unique although nulls are distinct |
| Lifecycle.ReachableIsSane | scoped_access/models.py:624-650 | in every reachable state live (user, role, level, scope) are unique and `revoked_at` is set exactly on revoked rows |
| Lifecycle.RunsAreWrites | scoped_access/models.py:340-394 | whole runs of managed operations are such interleavings |
| Lifecycle.RunsKeepLiveGrantsUnique | scoped_access/models.py:624-650 | starting empty, live grants stay unique over every run of managed operations |
| Store.Tables.Grant | scoped_access/models.py:340-394 | performed, the row names the requested user, role, scope and window and the acting grantor; on any refusal or failing receiver the tables are the prior ones, with the reason in the code's order |
| Store.Tables.GrantPermissions | scoped_access/models.py:183-204 | the same for a permission edit; a receiver can only fail it when something was added |
| Store.Tables.RevokePermissions | scoped_access/models.py:206-222 | the same for a removal |
| Store.Tables.CreateRole | scoped_access/services.py:16-27 | a refused permission undoes the role as well |
| Store.Tables.DeleteRole | scoped_access/services.py:67-74 | a role in use is not deleted |
| Store.AssignmentInstance.Authorize | scoped_access/models.py:527-547 | the question is asked about the stored scope, whatever the caller's copy said, and the copy is in step afterwards |
| Store.AssignmentInstance.ApplyTransition | scoped_access/models.py:507-525 | one conditional update against the stored status; a refusal teaches the copy the stored status only |
| Store.AssignmentInstance.Restore | scoped_access/models.py:549-562 | the transition fields are those of the snapshot, the others untouched |
| Store.AssignmentInstance.Transit | scoped_access/models.py:564-618 | performed, the row is SUSPENDED, ACTIVE or REVOKED by this actor, now, for this reason; refused or rolled back by a failing receiver, the tables are the prior ones; either way the instance ends equal to the stored row |
| Store.RoleInstance.Assign | scoped_access/services.py:42-45 | the loop of assignments, clearing the owner level with the owner |
| Store.RoleInstance.Validate | scoped_access/services.py:47-51 | the first of owner validation, manage rights at the next owner and name uniqueness that fails |
| Store.RoleInstance.Update | scoped_access/services.py:29-57 | the specified new state or the prior one, and in both cases the instance's fields are those stored |
| RequestCache.GetStore | scoped_access/cache.py:46-54 | touches nothing but store and flag; an existing store is usable exactly outside a dirty transaction, and empty if it was dirty |
| RequestCache.HooksJoinInnermost | scoped_access/models.py:391-392 | a hook is added to the innermost transaction, after the hooks already there, and to no other block |
| RequestCache.RollbackKeepsInv | scoped_access/cache.py:46-59 | rolling back to a savepoint or outside of it leaves no memo that disagrees with the restored rows |
| RequestCache.CommitKeepsInv | scoped_access/cache.py:46-74 | a commit, its hooks included, keeps store and rows in agreement |
| RequestCache.MutateKeepsInv | scoped_access/cache.py:57-74 | a managed write, with or without a commit hook, keeps them in agreement |
| RequestCache.ExitKeepsInv | scoped_access/cache.py:31-43 | so does leaving a request block at any transaction depth |
| RequestCache.JudgeKeepsInv | scoped_access/engine.py:131-156 | a memoized verdict equals a fresh one, and memoizing it keeps the agreement |
| RequestCache.CachedReadIsFresh | scoped_access/engine.py:188-214 | after every properly nested run, a read through the store gives the effective rows and verdicts of a fresh read, at any instant |
| RequestCache.FailedWriteLeavesNoTrace | scoped_access/cache.py:46-59 | whatever an operation and its receivers did inside their transaction (writes, reads, savepoints, request blocks), after the rollback tables and blocks are the prior ones and rows and verdicts read are theirs |
| RequestCache.FetchKeepsRecent | scoped_access/engine.py:195-207 | rows handed out through the store were the table's rows at a settled moment since it was opened, others are those of this instant |
| RequestCache.ReadsAreNoOlderThanTheRequest | scoped_access/cache.py:31-54 | with other requests committing, and stale rows judged as well, the rows behind a read are those of this instant or of a moment since the outermost request block began that holds no uncommitted write of the request |
| RequestCache.RevocationIsEffectiveByNextRequest | scoped_access/cache.py:1-6 | a row not ACTIVE since the request began is never used |
| RequestMoment.ReadsAfterInvalidationAreFresh | scoped_access/cache.py:46-54 | whatever follows an invalidation in its transaction, other requests included, rows and verdicts read are those of this instant |
| RequestMoment.GuardsReadTheTables | scoped_access/models.py:173-181 | so the guards that run after a role is locked and reloaded decide on the tables as they are |
| RequestMoment.VerdictIsOfTheRow | scoped_access/engine.py:131-156 | the verdict used with a row that was read is the validity of that row |
| RequestMoment.DecisionIsOfOneMoment | scoped_access/engine.py:188-242 | with other requests committing, the rows a decision uses, validity included, are those of a fresh decision at one moment since the outermost request block was entered |
| RequestMoment.RepeatedReadIsStable | scoped_access/engine.py:195-207 | within a request the tables are not asked twice for a user's rows, whatever other requests commit |
| RequestMoment.RepeatedVerdictIsStable | scoped_access/engine.py:131-156 | nor is a row judged twice |
| RequestMoment.CommitDropsRows | scoped_access/models.py:391-392 | after the outermost commit the store has no rows of the users its hooks name |
| RequestMoment.RequestRestoresTheFlag | scoped_access/cache.py:31-43 | leaving the outermost request block leaves no store and the dirty flag as it was found, whatever happened inside |
| RequestMoment.NestedRequestIsInvisible | scoped_access/cache.py:31-36 | a request block inside another shares its store and leaves no trace |
| RequestMoment.WriteDropsAndHooks | scoped_access/cache.py:57-74 | a write drops at once what it concerns, and leaves its hook with the innermost transaction only |
| RequestMoment.MemoizedWindowsAreChecked | scoped_access/engine.py:208-214 | windows are checked at each read, over memoized rows too |
| RequestScope.Context.GetStore | scoped_access/cache.py:46-54 | the code's store function is the model's, and hands out a store only when it may be used |
| RequestScope.Context.InvalidateUser | scoped_access/cache.py:62-66 | drops that user's rows and marks an open transaction dirty |
| RequestScope.Context.InvalidateAll | scoped_access/cache.py:69-74 | empties the store and marks an open transaction dirty |
| RequestScope.Context.EnterRequest | scoped_access/cache.py:31-38 | the outermost block opens an empty store; an inner one shares it |
| RequestScope.Context.ExitRequest | scoped_access/cache.py:39-43 | the outermost block restores what it found |
| RequestScope.Context.Commit | scoped_access/models.py:391-392 | the outermost commit runs every hook outside the transaction, an inner one hands them on |
| RequestScope.Context.Write | scoped_access/models.py:389-392 | write, invalidation and hook are one step of the model |
| RequestScope.Context.EffectiveAssignments | scoped_access/engine.py:188-214 | of the rows memoized or fetched, exactly those at or after their `valid_from` and before their `valid_until` at the read |
| RequestScope.Context.AssignmentIsValid | scoped_access/engine.py:131-156 | the memoized verdict of the model |
| RequestScope.Context.AdmittedRows | scoped_access/engine.py:229-231 | inside a request, exactly the rows a fresh read would admit |
| RequestScope.Context.UserPermissions | scoped_access/engine.py:221-250 | inside a request, exactly the permissions of a fresh read |
| ReAuth.StepKeepsTokensSound | scoped_access/reauth/service.py:59-72 | in every interleaving a token is stored at most once, by its issuer, and every payload in circulation is the one stored |
| ReAuthSingleUse.AdvanceKeepsElected | scoped_access/reauth/atomic.py:47-61 | on both backend paths whoever gets past the pop is the token's one taker |
| ReAuthSingleUse.ConsumedAtMostOnce | scoped_access/reauth/service.py:92-119 | for any interleaving and any eviction at most one `consume` of a token returns true |
| ReAuthSingleUse.CompletedPopsElectExactlyOne | scoped_access/reauth/atomic.py:47-61 | without eviction exactly one of the completed pops obtains the payload |
| ReAuthWindow.TimelyMarkSeesEarlier | scoped_access/reauth/service.py:122-133 | a used key outlives every mark a timely consumer can still add |
| ReAuthWindow.FreshConsumerIsFirstAndOnly | scoped_access/reauth/service.py:122-133 | with consumers at most the token lifetime between check and mark, a fresh success is the only one and its mark precedes every other success |
| ReAuthWindow.SlowerConsumerIsFreshAgain | scoped_access/reauth/service.py:122-133 | one tick more and a run exists in which two fresh consumptions succeed |
| ReAuthWindow.FreshElectionHoldsExactlyUpToTtl | scoped_access/reauth/service.py:122-133 | no run lets two fresh consumptions of a token succeed if and only if the bound holds |
| ReAuthGeneration.DeadIsNeverAccepted | scoped_access/reauth/service.py:74-81 | a generation that has left the cache is never accepted again by a consumer that has yet to read |
| ReAuthGeneration.InvalidationBeatsRacingIssuance | scoped_access/reauth/service.py:135-139 | after the generation write no consumer reading later accepts a token whose issuer read earlier, even if stored afterwards |
| ReAuthGeneration.EvictionNeverRevives | scoped_access/reauth/service.py:28-46 | losing and re-initializing the generation key never revives an old token |
| ReAuthGeneration.IssuersAgree | scoped_access/reauth/service.py:34-46 | undisturbed, all concurrent first-time issuers of a user stamp one generation |
| ReAuthService.EveryOperationIsProgress | scoped_access/reauth/service.py:83-133 | every process ends after a bounded number of its own operations |
| ReAuthService.Completed | scoped_access/reauth/service.py:83-133 | left alone, a process ends |
| ReAuthService.ValidatingRuns | scoped_access/reauth/service.py:74-81 | run without interruption, the validation steps decide as `_still_valid` does |
| ReAuthService.IssuingRuns | scoped_access/reauth/service.py:59-72 | run without interruption, the issuing steps store one entry with the stable generation and the logical expiry |
| ReAuthService.Worker.Generation | scoped_access/reauth/service.py:28-46 | returns the stored generation, or stores a new random one |
| ReAuthService.Worker.Issue | scoped_access/reauth/service.py:48-72 | only a verified proof of an active user changes the cache, and then as the issuing steps do |
| ReAuthService.Worker.IsStillValid | scoped_access/reauth/service.py:74-81 | principal, logical expiry and generation, in this order |
| ReAuthService.Worker.AtomicPop | scoped_access/reauth/atomic.py:47-61 | both backend paths are the popping steps taken in a row |
| ReAuthService.Worker.Consume | scoped_access/reauth/service.py:83-119 | the method is the consumer process run to its end |
| ReAuthService.Worker.ConsumeInWindow | scoped_access/reauth/service.py:121-133 | validity first, then the mark, as the window steps do |
| ReAuthService.Worker.InvalidateAllForUser | scoped_access/reauth/service.py:135-139 | the invalidator process run to its end |
| ReAuthService.ConsumeDecides | scoped_access/reauth/service.py:83-133 | an uninterrupted `consume` succeeds exactly for a present, unexpired token of this user and generation that is unclaimed, or unused when freshness is asked |
| ReAuthService.ForeignConsumeBurnsNothing | scoped_access/reauth/service.py:101-103 | a consumption by another principal leaves the cache as it was |
| ReAuthService.SingleUseBurns | scoped_access/reauth/service.py:108-111 | after a success nobody ever consumes the token again |
| ReAuthService.IssuedTokenLastsTtl | scoped_access/reauth/service.py:59-72 | a token just issued is accepted exactly until its lifetime has passed |
| ReAuthService.WindowKeepsVerifying | scoped_access/reauth/service.py:121-133 | in window mode use never extends a token nor ends it early, and it is never fresh twice |
| ReAuthService.ConsumeTouchesItsTokenOnly | scoped_access/reauth/service.py:83-133 | a consumption leaves every other token, claim, mark and generation as it was |
| ReAuthService.RefusedTokenIsNotMarked | scoped_access/reauth/service.py:122-128 | an expired or invalidated token never marks itself used |
| ReAuthService.InvalidationIsForOneUser | scoped_access/reauth/service.py:135-139 | an invalidation refuses every token of its user and leaves those of others as they were |
| ReAuthReachable.ReachableIsFit | scoped_access/reauth/service.py:59-72 | after any interleaving and eviction, entries outlast their logical expiry by the token lifetime, claims outlast entries, marks outlive tokens, and values to come are unused |
| ReAuthReachable.ConsumeDecidesWhenReached | scoped_access/reauth/service.py:83-133 | the exact condition of `consume` in every reachable state |
| ReAuthReachable.IssuedTokenLastsWhenReached | scoped_access/reauth/service.py:59-72 | in every reachable state the token issued next is accepted exactly for its lifetime |
| ReAuthReachable.WindowKeepsVerifyingWhenReached | scoped_access/reauth/service.py:121-133 | in every reachable state of window mode an accepted token keeps verifying exactly until it expires and is never fresh again |
| Drf.RejectedExactlyWhenMisplaced | scoped_access/drf/mixins.py:37-55 | a policy tree is rejected if and only if a path through an OR or a NOT leads to a scoped permission; otherwise the leaves found are exactly the scoped permissions in it |
| Drf.LeavesRunLeftToRight | scoped_access/drf/mixins.py:45-55 | the leaves are found from left to right |
| Drf.AcceptedIsConjunction | scoped_access/drf/mixins.py:37-55 | an accepted tree admits exactly when every scoped leaf does and the rest of it does |
| Drf.Deduplicated | scoped_access/drf/mixins.py:86 | the same permissions, none twice |
| Drf.DeduplicationKeepsOrder | scoped_access/drf/mixins.py:86 | permissions stay in the order in which they first appear |
| Drf.PermissionNamesVerbAndModel | scoped_access/drf/permissions.py:20-28 | a permission is made of the model's application, the verb and the model's name; different verbs ask for different permissions |
| Drf.DefaultMethodsAsk | scoped_access/drf/permissions.py:20-28 | which one permission each HTTP method asks for by default: view for reading, add, change and delete for writing, none for OPTIONS, and no other method is allowed |
| Drf.GateRequires | scoped_access/drf/mixins.py:81-84 | adds exactly what the leaves of one permission ask; fails for a misplaced leaf or an unmapped method, in that order |
| Drf.View.Required | scoped_access/drf/mixins.py:58-88 | what every leaf asks, each once, remembered for the method and model; or the first refusal, and nothing remembered |
| Drf.View.Queryset | scoped_access/drf/mixins.py:111-128 | the folded filter keeps exactly the objects that every required permission's filter keeps, or the unrestricted scope filter when none is required |
| Drf.View.AssertTargetScope | scoped_access/drf/mixins.py:198-207 | refuses the candidate exactly when some required permission is missing on it, or without requirements when it is not covered |
| Drf.RequiredIsEveryLeaf | scoped_access/drf/permissions.py:31-36 | holding all required permissions on an object is passing every scoped leaf |
| Drf.ListIsEveryLeaf | scoped_access/drf/mixins.py:111-128 | the list shows exactly the objects the write guard would let through and, with a permission required, exactly those every scoped leaf admits |
| Drf.ListNeverShowsMore | scoped_access/drf/mixins.py:111-128 | where accessors are parent steps onto the previous level's model, nothing the queryset lists would be refused by the guard or a leaf, whatever levels the parents skip |
| Drf.ViewAdmitsWhatItLists | scoped_access/drf/mixins.py:111-128 | an object passes all permissions of an accepted view if and only if the list shows it and the parts that are not scoped admit it |

## Left out

- Delegation under a callable or listed policy: the theorem is about "self"; the listed policy is modelled in the guards, a callable one is not.
- FilterAgreement.LayeredWorldAgrees: an object whose anchor exists but plays no level is outside it; FilterAgreesExactlyWhenHeightsMatch covers that object.
- FilterAgreement.AccessibleIsDecision: for a superuser the filter lists configured levels only, while the decision allows every row of the model; the comparison is made for rows that play the level.
- ReAuthSingleUse.CompletedPopsElectExactlyOne: the native path is compared before the physical deadline of the token, since afterwards nobody obtains it.
- ReAuthService.Worker.AtomicPop: backends differ on whether deleting an expired key succeeds; the model lets it, and the logical expiry decides.
- Hierarchy.ByName: which of several levels of one name it finds is stated by LastOfNameWins.
- Interleaving.InterleavedNoAmplification: all the guards of one check share the same two reads, and its write and commit are one moment; the code reads again for each guard.
- RequestMoment.DecisionIsOfOneMoment: takes for granted that the user of a committed row never changes and its key is never reused, and that a row is judged after the read that handed it out, as every caller in the engine does.
- AccessorSafety.FilterIsSafeExactlyWhenClimbsAreWalks: is about accessors that are valid relation paths, which rule E007 reports otherwise; on others the query cannot be built.
- Reads between a write and its own invalidation inside one managed operation, such as from a receiver of Django's save signals.
- Changes of the host's hierarchy nodes during a request or run: the host is one fixed value, and so are the registry and the configuration.
- `ResourceRegistry` updates, the settings parser, swappable models, migrations, and the check rules E005 and E009 to E014.
- An explicit clock (`at`): every decision takes its rows as effective at the instant of the read.
- `covers` on arbitrary or unsaved assignment instances: assignments are rows, joined with their roles.
- Numeric and textual primary keys compare as strings here, as `_same_node` does; a database that compares them by type is not part of this model.
- Empty model labels, parents and anchors count as absent, as they do in the code.
- `access_summary`, `visible_resources`, the admin, the authentication backend and log messages: thin callers of what is proved.
- The guards that only raise on unmanaged writes (`mutations.py`, `role_permissions.py` and the queryset overrides): every write here is a managed one.
- Credential verifiers are a boolean oracle, random values never repeat, and a signal receiver is a step that may fail.
- The clean-up of token indexes written by earlier versions (`scoped_access/reauth/service.py:141-146`): its deletions are evictions in the concurrent model.
- A view without a request, which requires nothing, and actions other than the list one, whose queryset is left unfiltered.
- View dispatch, permission discovery and its re-entrancy flag, `_apply_payload`, throttling and HTTP status mapping: the candidate object and the view's permissions are parameters.
