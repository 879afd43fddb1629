# Source synchronisation, authorisation and admin front end, modelled in Dafny

This project models the core of a Node.js API and its React admin front end.

**Pull engine (`sync-source`).** It asks the remote source service for its file listing page by page. It fetches the files in batches of ten and maps each file to its place on the local disk: the plugin folder, the admin front end, the project root, or a path relative to the manifest. It writes only the files that are new or changed, records the version under a per-source update lock, and then issues the restart commands.

**Push engine (`upload-source`).** It takes the update lock for a source and keeps only the files named by valid manifest entries. It reads the remote contents map and finds the new files. It rewrites the manifest when files were added, uploads every file, and releases the lock whatever happened.

**Other cores.**
- The authorization service: roles, resources and endpoint configurations with permission checks, and the middleware that applies them to routes.
- The role migration, which moves users from role names to role ids.
- The request helpers: pagination, naming utilities, the cookie domains, the client IP, the version and language middleware, the role gate and the user-role manager.
- The admin front end's state: the tab store, the global store and the auth store.
- The menu filtering by role and the parent-path helper.
- The CASL ability rules, and the form error mapping of `useForm`.

**How outside effects are modelled.** Everything the code does outside itself is a parameter of the model:
- the remote API as oracles (a listing snapshot, file contents, the contents map, upload outcomes);
- the local disk as a value (`LocalDisk.Disk`);
- the clock as `now`;
- fresh database ids as given ids;
- JSON parsing as a parse function;
- endpoint regular-expression matching as a `matches` function;
- the shell as the set of commands that fail.

Stores whose fields the code updates in place are classes with `modifies` clauses. Pure helpers are functions with lemmas. Loops are methods proved against specification functions.

## Model

| member | source | states |
|---|---|---|
| Cookies.SchemeLength | node-api/src/plugins/auth/utils/cookies.ts:10 | the scheme the pattern matches is absent, `http://` or `https://` (0, 7 or 8 characters) and never longer than the domain |
| Cookies.StripScheme | node-api/src/plugins/auth/utils/cookies.ts:10 | removing the scheme leaves a suffix of the domain |
| Cookies.MapEach | node-api/src/plugins/auth/utils/cookies.ts:19 | mapping keeps the length and puts `f` of the i-th domain at position i |
| Cookies.MapEachMembers | node-api/src/plugins/auth/utils/cookies.ts:25 | a name is in the mapped list exactly when it is the image of some domain |
| Cookies.Without | node-api/src/plugins/auth/utils/cookies.ts:20 | filtering never lengthens the list |
| Cookies.WithoutMembers | node-api/src/plugins/auth/utils/cookies.ts:20 | a domain survives the filter exactly when it was in the list and is not dropped |
| Cookies.IsLocalhostIgnoresCase | node-api/src/plugins/auth/utils/cookies.ts:12-15 | the localhost test ignores case, and holds exactly when the lower-cased domain without its scheme contains `localhost` |
| Cookies.GetDomainsMembers | node-api/src/plugins/auth/utils/cookies.ts:17-26 | a name is a cookie domain exactly when it is a trimmed, non-localhost entry of SITE_DOMAIN with its scheme removed, or `localhost` when ALLOW_LOCALHOST is set |
| Cookies.ExtraMembers | node-api/src/plugins/auth/utils/cookies.ts:22-24 | the only extra domain is `localhost`, and only when ALLOW_LOCALHOST is truthy |
| Cookies.NoLocalhostUnlessAllowed | node-api/src/plugins/auth/utils/cookies.ts:17-26 | without ALLOW_LOCALHOST, `localhost` is never a cookie domain, whatever SITE_DOMAIN lists |
| Cookies.NamesLocalhost | node-api/src/plugins/auth/utils/cookies.ts:12-15 | an entry that would strip to `localhost` is itself recognised as localhost (so it is filtered out) |
| Cookies.LocalhostLastWhenAllowed | node-api/src/plugins/auth/utils/cookies.ts:22-25 | with ALLOW_LOCALHOST, the last cookie domain is `localhost` |
| Cookies.UnsetSiteDomain | node-api/src/plugins/auth/utils/cookies.ts:18 | an unset SITE_DOMAIN yields the single empty domain, followed by `localhost` when allowed |
| Cookies.OneSchemeRemoved | node-api/src/plugins/auth/utils/cookies.ts:25 | the final replace removes only one leading scheme: `http://http://x` keeps `http://x` |
| Cookies.SetOpsPerDomain | node-api/src/plugins/auth/utils/cookies.ts:44-50 | login writes exactly two cookies per domain, `token` then `refreshToken`, each http-only on path `/` for that domain |
| Cookies.ClearUndoesSet | node-api/src/plugins/auth/utils/cookies.ts:28-58 | logout clears exactly the (name, options) pairs that login set, in the same order |
| Cookies.Response.SetCookies | node-api/src/plugins/auth/utils/cookies.ts:46-49 | the response gains the set operations for every domain, appended to what it already had |
| Cookies.Response.ClearCookies | node-api/src/plugins/auth/utils/cookies.ts:54-57 | the response gains the clear operations for every domain |
| Cookies.Response.SetClientCookie | node-api/src/plugins/auth/utils/cookies.ts:44-50 | `setClientCookie` sets both cookies on every domain `getDomains` yields |
| Cookies.Response.RemoveClientCookie | node-api/src/plugins/auth/utils/cookies.ts:52-58 | `removeClientCookie` clears both cookies on every domain `getDomains` yields |
| ClientIp.FirstValue | node-api/src/plugins/auth/utils/getIp.ts:7-11 | a single header value is taken as is; a list gives its first element, and an empty list gives none (`undefined`) |
| ClientIp.CloudflareDecides | node-api/src/plugins/auth/utils/getIp.ts:6-11 | a truthy `cf-connecting-ip` decides the address, whatever `x-next-ip` and the socket say |
| ClientIp.NextIpOnlyWithoutCloudflare | node-api/src/plugins/auth/utils/getIp.ts:12-20 | `x-next-ip` is used only without a truthy Cloudflare header; with neither, the client address or `""` is returned |
| ClientIp.RealIpProvenance | node-api/src/plugins/auth/utils/getIp.ts:4-22 | the address always comes from one of the three sources or is `""`, and it is missing exactly when the chosen header is an empty list |
| VersionLanguage.ChooseVersion | node-api/src/middlewares/versionAndLanguage.middleware.ts:23-25 | a given, supported version is kept; any other gives the default `v1` |
| VersionLanguage.ChooseLanguage | node-api/src/middlewares/versionAndLanguage.middleware.ts:28-30 | a given, supported language is kept; any other gives the first supported language, or `en` |
| VersionLanguage.ChoicesInRange | node-api/src/middlewares/versionAndLanguage.middleware.ts:10-13 | the version chosen is one of `en`, `vi` or `v1`, and the language is supported or `en` |
| VersionLanguage.LanguageChoiceStable | node-api/src/middlewares/versionAndLanguage.middleware.ts:28-30 | feeding the chosen language back in chooses it again |
| VersionLanguage.VersionAndLanguage | node-api/src/middlewares/versionAndLanguage.middleware.ts:15-39 | the request carries the chosen version and language, the i18n service is switched to that language, and `next` is called once |
| Pagination.Matches | node-api/src/helpers/pagination.ts:19-20 | the matching documents all satisfy the filter and are no more than the collection |
| Pagination.Window | node-api/src/helpers/pagination.ts:19 | a non-zero limit bounds the page size by its magnitude, and skipping past the end gives an empty page |
| Pagination.Paginate | node-api/src/helpers/pagination.ts:14-32 | the query succeeds exactly when the offset is not negative; then it reports `skip = (page - 1) * limit`, the match count as total, echoes limit and page, and returns only matching documents |
| Pagination.PageContents | node-api/src/helpers/pagination.ts:15-19 | for every limit, the page holds the matches from `skip` on, in order: all the rest for a limit of 0, otherwise as many as the limit's absolute value allows |
| Pagination.PaginateDefaults | node-api/src/helpers/pagination.ts:14 | with no arguments: offset 0, limit 20, page 1, the first 20 documents, total the whole collection |
| Pagination.MatchesAll | node-api/src/helpers/pagination.ts:14 | the default empty filter matches every document, in order |
| Pagination.FirstPageSkipsNothing | node-api/src/helpers/pagination.ts:15 | page 1 always succeeds and skips nothing |
| Pagination.PageHoldsItsMatches | node-api/src/helpers/pagination.ts:15-19 | the j-th document of page p is the match at index (p - 1) * limit + j |
| Pagination.PageWithinLimit | node-api/src/helpers/pagination.ts:19 | a successful page never holds more documents than the limit's magnitude |
| Utils.IsEmptyIff | node-api/src/utils/index.ts:10-22 | a value is empty exactly when it is null, undefined, the empty string, or an array or object without keys; a number never is |
| Utils.Capitalise | node-api/src/utils/index.ts:47 | capitalising a later segment keeps its length |
| Utils.CapitaliseAll | node-api/src/utils/index.ts:44-49 | segments without a dash join to a name without a dash |
| Utils.ToContainerName | node-api/src/utils/index.ts:43-50 | a container name has no dash and ends in `Container` |
| Utils.NoDashCapitalise | node-api/src/utils/index.ts:47 | capitalising never introduces a dash |
| Utils.DecamelCapitalise | node-api/src/utils/index.ts:47 | a lower-case segment capitalised and turned back to kebab case is that segment after a dash |
| Utils.DecamelCapitaliseAll | node-api/src/utils/index.ts:44-49 | the camel-cased tail segments turn back into the dash-separated tail |
| Utils.ContainerNameRoundTrip | node-api/src/utils/index.ts:43-50 | for lower-case, non-empty segments, dropping `Container` and turning camel case back into kebab case gives the plugin folder name again |
| Utils.TwoSegments | node-api/src/utils/index.ts:43-50 | a two-segment folder name becomes the first segment, the second capitalised, then `Container` |
| Utils.SyncSourceContainer | node-api/src/utils/index.ts:40 | `sync-source` becomes `syncSourceContainer`, the documented example |
| RoleGate.RoleMiddleware | node-api/src/plugins/auth/middleware/role.middleware.ts:11-24 | the gate either passes the request on or passes on a "Permission denied" error, nothing else |
| RoleGate.RoleMiddlewareIff | node-api/src/plugins/auth/middleware/role.middleware.ts:13-22 | the request passes exactly when there is a user whose role is in the allowed list; otherwise the error is "Permission denied" |
| RoleGate.EmptyRolesDeny | node-api/src/plugins/auth/middleware/role.middleware.ts:13 | an empty role list admits nobody |
| RoleGate.MoreRolesAdmitMore | node-api/src/plugins/auth/middleware/role.middleware.ts:13 | allowing more roles never turns away a request that passed |
| RoleGate.RequestWithUser.GetUserPermission | node-api/src/plugins/auth/middleware/role.middleware.ts:7-9 | with a user, the request gets the admin table for role `admin` and the user table otherwise; without one, reading the role throws and nothing is written |
| UserRoles.RoleMapKeys | node-api/src/plugins/users/utils/userRole.ts:10-15 | the role map has exactly the listed roles as keys, each mapped to itself |
| UserRoles.UserRoleManager.AppendRoles | node-api/src/plugins/users/utils/userRole.ts:6-8 | the optional roles are appended after the current ones |
| UserRoles.UserRoleManager.GetUserRoles | node-api/src/plugins/users/utils/userRole.ts:10-15 | the getter returns the map whose keys are exactly the roles held, each mapped to itself |
| UserRoles.AppendKeepsRoles | node-api/src/plugins/users/utils/userRole.ts:6-8 | appending roles never removes a key from the role map |
| AuthzService.ActionsOf | node-api/src/plugins/authz/service/authz.service.ts:34-42 | the resource map gives the allowed actions of the last resource with that name (a later entry overwrites an earlier one in `new Map`), and nothing for an unknown name |
| AuthzService.LastNamed | node-api/src/plugins/authz/service/authz.service.ts:34 | the index found is that of the last resource carrying the name, or none when no resource has it |
| AuthzService.CheckOne | node-api/src/plugins/authz/service/authz.service.ts:36-61 | one permission passes exactly when it is permitted (special resource, or known resource with a special or allowed action); a refusal is a 400 |
| AuthzService.ValidateOkIff | node-api/src/plugins/authz/service/authz.service.ts:36-61 | the validation loop succeeds exactly when every permission in the list is permitted |
| AuthzService.ValidateFirstError | node-api/src/plugins/authz/service/authz.service.ts:36-61 | a failed validation reports the first permission that is not permitted, as a 400 |
| AuthzService.SpecialResourceAlwaysValid | node-api/src/plugins/authz/service/authz.service.ts:38-40 | permissions on `all` or `*` are accepted whatever resources exist |
| AuthzService.IndexOfId | node-api/src/plugins/authz/service/authz.service.ts:73 | `findById` finds a record with that id exactly when one exists, for roles, resources and endpoint configs alike |
| AuthzService.RemoveAt | node-api/src/plugins/authz/service/authz.service.ts:143 | deleting a document keeps every other one, in order |
| AuthzService.CreateRoleSpec | node-api/src/plugins/authz/service/authz.service.ts:18-66 | a role is created exactly when it has a name, an array of permissions, a name no role has yet, and valid permissions; the error is 400 for a missing name or non-array, 409 for a taken name; a new role is not a system role |
| AuthzService.UpdateRoleSpec | node-api/src/plugins/authz/service/authz.service.ts:80-131 | an update succeeds exactly when the role exists, is not a system role or the caller is superadmin, and any new permissions form a valid array; it then yields the role merged with the request; errors are 404, 403 or 400 |
| AuthzService.UpdateKeepsIdentity | node-api/src/plugins/authz/service/authz.service.ts:128 | an update never changes the role's id or system flag, and an empty request leaves the role as it was |
| AuthzService.DeleteRoleSpec | node-api/src/plugins/authz/service/authz.service.ts:133-144 | a role is deleted exactly when it exists and is not a system role; otherwise 404 or 403 |
| AuthzService.CreateResourceSpec | node-api/src/plugins/authz/service/authz.service.ts:208-221 | a resource is created exactly when it has a name no resource has yet; otherwise 400 or 409 |
| AuthzService.CreateEndpointSpec | node-api/src/plugins/authz/service/authz.service.ts:256-272 | an endpoint config is created exactly when path and method are given and no config has that pair; otherwise 400 or 409 |
| AuthzService.ResolveRole | node-api/src/plugins/authz/service/authz.service.ts:167-173 | a populated role is used as is, a role id is looked up in the roles, and no role resolves to none |
| AuthzService.CheckPermission | node-api/src/plugins/authz/service/authz.service.ts:162-189 | missing user, resource or action is a 400, an unknown role a 404; otherwise access is granted exactly when the role is superadmin or one of its permissions matches resource and action, special values included |
| AuthzService.CheckPermissionMonotone | node-api/src/plugins/authz/service/authz.service.ts:185-188 | adding a permission to a role never revokes access |
| AuthzService.WildcardGrantsEverything | node-api/src/plugins/authz/service/authz.service.ts:150-160 | a permission on a special resource with a special action grants every request |
| AuthzService.PlainPermissionsExact | node-api/src/plugins/authz/service/authz.service.ts:185-188 | for a non-superadmin role without special values, access is granted exactly when the (resource, action) pair is listed |
| AuthzService.PairsOf | node-api/src/plugins/authz/service/authz.service.ts:196-201 | the pairs of one resource are its name with each allowed action, in order |
| AuthzService.AllPermissionsExact | node-api/src/plugins/authz/service/authz.service.ts:191-205 | the permission list holds a pair exactly when some resource with that name allows that action, and has one entry per allowed action |
| AuthzService.AuthzStore.CreateRole | node-api/src/plugins/authz/service/authz.service.ts:18-66 | the store gains the new role exactly when creation succeeds, and nothing else changes |
| AuthzService.AuthzStore.UpdateRole | node-api/src/plugins/authz/service/authz.service.ts:80-131 | on success the merged role replaces the stored one in place; on error the roles are unchanged |
| AuthzService.AuthzStore.DeleteRole | node-api/src/plugins/authz/service/authz.service.ts:133-144 | on success the role is removed and no role with that id is left; on error nothing changes |
| AuthzService.AuthzStore.GetRoleById | node-api/src/plugins/authz/service/authz.service.ts:72-78 | the role returned carries the id asked for; 404 exactly when no role has it |
| AuthzService.AuthzStore.CreateResource | node-api/src/plugins/authz/service/authz.service.ts:208-221 | the store gains the new resource exactly when creation succeeds |
| AuthzService.AuthzStore.GetResourceById | node-api/src/plugins/authz/service/authz.service.ts:227-233 | the resource returned carries the id asked for; 404 exactly when no resource has it |
| AuthzService.AuthzStore.UpdateResource | node-api/src/plugins/authz/service/authz.service.ts:235-244 | an unknown id is a 404; otherwise the resource is merged with the request in place |
| AuthzService.AuthzStore.DeleteResource | node-api/src/plugins/authz/service/authz.service.ts:246-253 | an unknown id is a 404; otherwise that resource is removed |
| AuthzService.AuthzStore.CreateEndpointConfig | node-api/src/plugins/authz/service/authz.service.ts:256-272 | the store gains the new endpoint config exactly when creation succeeds |
| AuthzService.AuthzStore.GetEndpointConfigById | node-api/src/plugins/authz/service/authz.service.ts:278-284 | the config returned carries the id asked for; 404 exactly when no config has it |
| AuthzService.AuthzStore.UpdateEndpointConfig | node-api/src/plugins/authz/service/authz.service.ts:286-295 | an unknown id is a 404; otherwise the config is merged with the request in place |
| AuthzService.AuthzStore.DeleteEndpointConfig | node-api/src/plugins/authz/service/authz.service.ts:297-304 | an unknown id is a 404; otherwise that config is removed |
| AuthzService.AuthzStore.GetPermissions | node-api/src/plugins/authz/service/authz.service.ts:191-205 | the nested loop returns exactly the flat list of (resource, action) pairs |
| AuthzRoles.Wildcards | node-api/src/plugins/authz/schema/AuthzRoles.ts:62 | the hierarchical wildcards are exactly the actions ending in `:*` |
| AuthzRoles.AnyPrefixMatchesIff | node-api/src/plugins/authz/schema/AuthzRoles.ts:63-68 | the wildcard loop succeeds exactly when the action starts with some wildcard minus its final `*` |
| AuthzRoles.HasPermissionIff | node-api/src/plugins/authz/schema/AuthzRoles.ts:51-71 | `hasPermission` holds exactly when the resource has an entry and one of its actions is the action, `*`, or a `prefix:*` wildcard the action starts with |
| AuthzRoles.NoEntryDenies | node-api/src/plugins/authz/schema/AuthzRoles.ts:53-54 | a resource without an entry grants nothing |
| AuthzRoles.PrefixWildcard | node-api/src/plugins/authz/schema/AuthzRoles.ts:61-68 | `p:*` grants every action starting with `p:` but not `p` itself |
| AuthzRoles.AddActionMonotone | node-api/src/plugins/authz/schema/AuthzRoles.ts:51-71 | adding an action to an entry never revokes a permission |
| AuthzMiddleware.Decide | node-api/src/plugins/authz/middleware/authz.middleware.ts:47-60 | a check passes exactly when the service answers true; a false answer is a 403 with the given message and a thrown error is passed on unchanged |
| AuthzMiddleware.ResolvePermission | node-api/src/plugins/authz/middleware/authz.middleware.ts:29-45 | an active endpoint config decides the resource and action; without one the parameters are used only when both are given |
| AuthzMiddleware.CheckPermissionDecides | node-api/src/plugins/authz/middleware/authz.middleware.ts:20-65 | with an endpoint config the parameters are ignored; without one and without both parameters the request passes; otherwise it passes exactly when the service grants, and a denial is a 403 naming action and resource |
| AuthzMiddleware.AnyLoopIff | node-api/src/plugins/authz/middleware/authz.middleware.ts:91-103 | the loop lets the request through exactly when some complete pair is granted |
| AuthzMiddleware.CheckAnyIff | node-api/src/plugins/authz/middleware/authz.middleware.ts:70-114 | `checkAnyPermission` passes exactly when the endpoint config is granted, some complete pair is granted, or there are no pairs and no config; otherwise it is the "requires any" 403 |
| AuthzMiddleware.AllLoopFirstDenied | node-api/src/plugins/authz/middleware/authz.middleware.ts:140-152 | the loop passes exactly when every complete pair is granted, and a refusal names the first denied pair |
| AuthzMiddleware.CheckAllIff | node-api/src/plugins/authz/middleware/authz.middleware.ts:119-163 | `checkAllPermissions` passes exactly when the endpoint config (if any) and every complete pair are granted; a denied config is reported before any pair |
| AuthzMiddleware.AllImpliesAny | node-api/src/plugins/authz/middleware/authz.middleware.ts:70-163 | with at least one complete pair, passing `checkAllPermissions` implies passing `checkAnyPermission` |
| AuthzMiddleware.DynamicPermissionCheck | node-api/src/plugins/authz/middleware/authz.middleware.ts:168-197 | without an endpoint config the request passes; with one it passes exactly when the service grants, and a denial is a 403 naming action and resource |
| AuthzMiddleware.SuperadminAndDynamic | node-api/src/plugins/authz/middleware/authz.middleware.ts:168-197 | against the service's check, a superadmin passes every config naming a resource and an action, while a config with an empty field is a 400 even for them |
| AuthzMiddleware.FirstMatching | node-api/src/plugins/authz/middleware/authz.middleware.ts:209-216 | no config is found exactly when no route's pattern matches the path; a config found belongs to a matching route |
| AuthzMiddleware.CheckEndpointPermission | node-api/src/plugins/authz/middleware/authz.middleware.ts:202-239 | a path no route matches passes; a pass otherwise means some matching route's config is granted |
| AuthzMiddleware.FirstMatchDecides | node-api/src/plugins/authz/middleware/authz.middleware.ts:209-235 | the first matching route decides, exactly as `dynamicPermissionCheck` on its config |
| RoleMigration.SeededRolesAreValid | node-api/src/database/migration/01_migrate_roles.ts:11-84 | every seeded role's permissions pass the authz service's validation against the seeded resources |
| RoleMigration.PermittedOverDefaults | node-api/src/database/migration/01_migrate_roles.ts:11-27 | a permission on a special resource, or a CRUD action on `users`, `roles` or `resources`, is accepted once those resources exist with the default actions |
| RoleMigration.NewRoleFor | node-api/src/database/migration/01_migrate_roles.ts:193-205 | a user without a role gets the default role; a mapped role name gets its new id; an unmapped name falls back to the default role |
| RoleMigration.ProcessUsersSnoc | node-api/src/database/migration/01_migrate_roles.ts:184-222 | processing one more user extends the loop's result by one turn |
| RoleMigration.MigratedAll | node-api/src/database/migration/01_migrate_roles.ts:184-222 | users each migrated on their own are exactly the loop's resulting user list |
| RoleMigration.ProcessUsersCounts | node-api/src/database/migration/01_migrate_roles.ts:185-221 | every user is counted as processed, each either updated or recorded as an error |
| RoleMigration.ProcessUsersEach | node-api/src/database/migration/01_migrate_roles.ts:190-221 | a user whose update succeeds carries its new role; one whose update throws is unchanged and recorded with its id, old role (`undefined` when unset) and message |
| RoleMigration.RemainingRoles | node-api/src/database/migration/01_migrate_roles.ts:256-258 | the roles left after rollback are exactly those not named in the role mapping |
| RoleMigration.RemainingResources | node-api/src/database/migration/01_migrate_roles.ts:269-271 | the resources left after rollback are exactly those not among the default resources |
| RoleMigration.MigrationStore.CreateResource | node-api/src/database/migration/01_migrate_roles.ts:87-108 | the resources become `WithResource` of the old ones: a default resource is added, active, only when no resource has its name |
| RoleMigration.MigrationStore.CreateRole | node-api/src/database/migration/01_migrate_roles.ts:110-135 | the first role with the seed's name is reused; otherwise a system role is created with the new id, or none is when creation fails |
| RoleMigration.RoleIdByName | node-api/src/database/migration/01_migrate_roles.ts:118-120 | `findOne({ name })` finds a role exactly when one has the name, and answers one with that name |
| RoleMigration.RoleIdByNameAppend | node-api/src/database/migration/01_migrate_roles.ts:123-130 | creating roles never changes what an earlier role with a name answers |
| RoleMigration.CreatedRoleLookup | node-api/src/database/migration/01_migrate_roles.ts:110-135 | after `createRole`, the seed's name answers the id returned, other names answer as before, and the roles only grow |
| RoleMigration.SeedRoleStep | node-api/src/database/migration/01_migrate_roles.ts:168-173 | one turn of the role loop keeps the mapping's description true one entry further |
| RoleMigration.SeedResourcesHasAll | node-api/src/database/migration/01_migrate_roles.ts:156-160 | the resource loop keeps every existing resource in place and leaves one under every default name |
| RoleMigration.MigrationStore.SeedRoles | node-api/src/database/migration/01_migrate_roles.ts:156-173 | the default resources are seeded; roles are only added; an entry of the mapping is mapped exactly when a role of its name existed or its creation did not fail, and then to the id of the first role with that name; nothing else is mapped |
| RoleMigration.MigrationStore.MigrateUser | node-api/src/database/migration/01_migrate_roles.ts:184-222 | one turn of the user loop: the user gets its new role unless the update throws, and the counters advance |
| RoleMigration.MigrationStore.MigrateUsers | node-api/src/database/migration/01_migrate_roles.ts:184-222 | the loop leaves every user as the loop's specification says and returns its counters |
| RoleMigration.MigrationStore.Up | node-api/src/database/migration/01_migrate_roles.ts:137-241 | the transaction fails, changing nothing, exactly when no `user` role exists and its creation fails; otherwise the resources are seeded, the mapping is as `SeedRoles` states, every user is processed with the `user` role's id as default, updated plus errors equals processed and nothing is skipped |
| RoleMigration.MigratedUserRole | node-api/src/database/migration/01_migrate_roles.ts:184-212 | after `up`, a user whose update went through holds the id of the role named by its old role when that name was mapped, and the id of the `user` role otherwise |
| RoleMigration.MappedKeyNamesRole | node-api/src/database/migration/01_migrate_roles.ts:168-173 | every mapped name points at the first role bearing that name |
| RoleMigration.AllMappedWithoutFailures | node-api/src/database/migration/01_migrate_roles.ts:168-173 | when no role creation fails, every entry of the mapping is mapped to the role with its name |
| RoleMigration.MigrationStore.Down | node-api/src/database/migration/01_migrate_roles.ts:243-284 | rollback removes the mapped roles and the default resources and unsets every user's role |
| RoleMigration.DownRemovesSeeds | node-api/src/database/migration/01_migrate_roles.ts:255-271 | after rollback no seeded role or resource is left, and every other role stays |
| PathMapper.SourceTypeOf | node-api/src/plugins/sync-source/utils/pathMapper.ts:13 | the source type is the manifest's non-empty `type`, and `plugin` when that is missing or empty |
| PathMapper.ReadSourceType | node-api/src/plugins/sync-source/utils/pathMapper.ts:11-13 | the type is read only from a manifest file that exists and parses, and then it is that manifest's type |
| PathMapper.MapFilePath | node-api/src/plugins/sync-source/utils/pathMapper.ts:8-32 | mapping succeeds exactly when the manifest can be read, and then joins the file path onto the cwd (`node-api`) or the manifest's directory (any other type) |
| PathMapper.MapFilePathBelowRoot | node-api/src/plugins/sync-source/utils/pathMapper.ts:15-27 | a normalised relative file path lands below the source's root, segment by segment |
| PathMapper.MapFilePathCanLeaveRoot | node-api/src/plugins/sync-source/utils/pathMapper.ts:26 | a file path starting with `../` lands outside the root, in a sibling directory |
| PathMapper.JoinManifestName | node-api/src/plugins/sync-source/utils/pathMapper.ts:39-45 | joining `manifest.json` onto a directory appends that one segment |
| PathMapper.GetManifestPath | node-api/src/plugins/sync-source/utils/pathMapper.ts:37-53 | the plugin's own manifest wins when accessible, then the root manifest; with neither the error names the source |
| PathMapper.CheckSourceExists | node-api/src/plugins/sync-source/services/source.service.ts:47-74 | a source counts as installed only when its install directory is accessible |
| PathMapper.CheckSourceExistsWhere | node-api/src/plugins/sync-source/services/source.service.ts:47-74 | a source is installed exactly when its directory and the `manifest.json` in it are both accessible: the working directory for `node-api`, the sibling `react-antd-admin` for the admin, and `src/plugins/<name>` for a one-segment plugin name |
| PathMapper.InstalledPluginResolves | node-api/src/plugins/sync-source/services/source.service.ts:47-74 | an installed plugin (any other name) resolves to the manifest in its own plugin directory |
| PathMapper.InstalledResolves | node-api/src/plugins/sync-source/services/source.service.ts:47-74 | every installed source except `react-antd-admin` has a manifest path |
| PathMapper.AdminInstalledWithoutManifest | node-api/src/plugins/sync-source/services/source.service.ts:55-56 | `react-antd-admin` can count as installed while no manifest path resolves for it, since installation is checked in the sibling directory and the manifest is not |
| SourceService.ListFrom | node-api/src/plugins/sync-source/services/source.service.ts:113-131 | the listing asks for at least the pages up to where it starts, and succeeds only when every page it asked for answered |
| SourceService.ListFromConsistent | node-api/src/plugins/sync-source/services/source.service.ts:113-131 | when every page reports the same total, the loop from a page on asks up to the last page (at least the first) and gathers their paths in order |
| SourceService.ListingComplete | node-api/src/plugins/sync-source/services/source.service.ts:108-131 | a consistent listing makes exactly max(1, totalPages) requests and returns the first page's source name with every page's paths in order |
| SourceService.ListAllFilePaths | node-api/src/plugins/sync-source/services/source.service.ts:108-131 | the paging loop returns the listing and the number of requests the specification gives |
| SourceService.ChunkShape | node-api/src/plugins/sync-source/services/source.service.ts:134-138 | the batches, concatenated, are the paths again; there are ceil(n / 10) of them, each non-empty and at most 10 long, all but the last exactly 10 |
| SourceService.ChunkStep | node-api/src/plugins/sync-source/services/source.service.ts:136-137 | the first batch is the first min(10, n) paths, followed by the batches of the rest |
| SourceService.MakeBatches | node-api/src/plugins/sync-source/services/source.service.ts:134-138 | the batching loop builds exactly the batches of 10 |
| SourceService.FetchAllStops | node-api/src/plugins/sync-source/services/source.service.ts:143-151 | once a batch request fails, the later batches are not fetched |
| SourceService.FetchContents | node-api/src/plugins/sync-source/services/source.service.ts:142-151 | the fetch loop returns every batch's contents in order, or the first failure |
| SourceService.UpdateSource | node-api/src/plugins/sync-source/services/source.service.ts:79-198 | the pull leaves the tracking records, the disk, the result, the rollback flag and the restart exactly as the pull specification says |
| SourceService.PullReleasesLock | node-api/src/plugins/sync-source/services/source.service.ts:100-104 | starting unlocked, a pull never leaves any source locked, creates a record for the source when missing and changes no other source's record |
| SourceService.PullRefusedWhileLocked | node-api/src/plugins/sync-source/services/source.service.ts:80-87 | while any source is being updated, a pull is a 409 and changes nothing |
| SourceService.PullSucceeds | node-api/src/plugins/sync-source/services/source.service.ts:106-182 | a pull succeeds exactly when listing, fetching and syncing all succeed; then the version is the new timestamp, the lock is released, a restart is triggered for the source and nothing is rolled back |
| SourceService.PullFailureKeepsVersion | node-api/src/plugins/sync-source/services/source.service.ts:184-197 | a failed pull keeps the recorded version and triggers no restart; a failed listing also leaves the disk alone and does not reach the rollback |
| SourceService.PullTwice | node-api/src/plugins/sync-source/services/source.service.ts:79-198 | pulling the same remote state twice is idempotent on the disk, and the second pull records the later timestamp |
| SourceService.GetSources | node-api/src/plugins/sync-source/services/source.service.ts:21-42 | the listing fails exactly when the remote call fails; otherwise each listed source is returned with whether it is installed, and the in-progress flag says whether any source is locked |
| SyncFileSystem.SyncOne | node-api/src/plugins/sync-source/services/fileSystem.service.ts:81-116 | a synced file is written at its mapped path, is reported unchanged exactly when that path already held the same content and new exactly when no file was there; a failure leaves the files alone |
| SyncFileSystem.SyncSeq | node-api/src/plugins/sync-source/services/fileSystem.service.ts:37-42 | a successful sync reports one status per file |
| SyncFileSystem.SyncSeqSnoc | node-api/src/plugins/sync-source/services/fileSystem.service.ts:37-42 | syncing one more file runs one more step on the disk the earlier files left |
| SyncFileSystem.SyncSeqStops | node-api/src/plugins/sync-source/services/fileSystem.service.ts:37-42 | the first failing file ends the sync; later files are not touched |
| SyncFileSystem.RestartPlan | node-api/src/plugins/sync-source/services/fileSystem.service.ts:58-76 | `node-api` restarts only the API, `react-antd-admin` only the admin, and any other source restarts the admin before the API; for every source but `node-api` the admin is built before it is restarted |
| SyncFileSystem.LocalFs.SyncFile | node-api/src/plugins/sync-source/services/fileSystem.service.ts:81-116 | one file is synced on the disk as the step specification says |
| SyncFileSystem.LocalFs.SyncFiles | node-api/src/plugins/sync-source/services/fileSystem.service.ts:31-53 | the disk and result after syncing all files are as the specification says |
| SyncFileSystem.LocalFs.TriggerServiceRestart | node-api/src/plugins/sync-source/services/fileSystem.service.ts:58-76 | the commands run are a prefix of the restart plan, stopping at the first one that fails, whose error is swallowed |
| SyncFileSystem.RunUntilFailure | node-api/src/plugins/sync-source/services/fileSystem.service.ts:58-76 | the commands run are a prefix of the plan; all but the last succeeded, and a plan cut short ends at a failing command |
| SyncFileSystem.TargetFollowsManifest | node-api/src/plugins/sync-source/services/fileSystem.service.ts:84 | a file's mapped path depends only on the manifest, so it is the same on any disk with the same manifest |
| SyncFileSystem.SyncOneFacts | node-api/src/plugins/sync-source/services/fileSystem.service.ts:87-110 | a synced file's directory exists afterwards and no directory is removed |
| SyncFileSystem.FirstRun | node-api/src/plugins/sync-source/services/fileSystem.service.ts:37-42 | after a sync of consistent files, every file sits at its mapped path with its content |
| SyncFileSystem.SecondRun | node-api/src/plugins/sync-source/services/fileSystem.service.ts:95-102 | syncing files already in place writes nothing and reports every one unchanged |
| SyncFileSystem.SyncFilesIdempotent | node-api/src/plugins/sync-source/services/fileSystem.service.ts:31-53 | syncing the same files twice leaves the disk as the first sync left it, with every file reported unchanged |
| ManifestService.ReadManifest | node-api/src/plugins/upload-source/services/manifest.service.ts:6-22 | a missing, unreadable or unparsable manifest gives the default (no files, empty name, version 1.0.0); a parsed one keeps its fields and gets an empty file list when it had none |
| ManifestService.RelativePaths | node-api/src/plugins/upload-source/services/manifest.service.ts:34-36 | each new file is recorded by its path relative to the manifest's directory, in order |
| ManifestService.UpdateManifest | node-api/src/plugins/upload-source/services/manifest.service.ts:24-41 | the updated manifest carries the source name, keeps the version, and lists the old entries followed by the new files' relative paths |
| ManifestService.IsManifestFileIsTextual | node-api/src/plugins/upload-source/services/manifest.service.ts:43-45 | the manifest test compares the strings: an absolute spelling of the same file is not recognised |
| ManifestService.GetNewFiles | node-api/src/plugins/upload-source/services/manifest.service.ts:47-52 | filtering never lengthens the list of files |
| ManifestService.GetNewFilesMembers | node-api/src/plugins/upload-source/services/manifest.service.ts:47-52 | a file is new exactly when it is among the valid files and its relative path is not yet an entry |
| ManifestService.GetNewFilesAppend | node-api/src/plugins/upload-source/services/manifest.service.ts:47-52 | the filter works file by file, so it distributes over concatenation |
| ManifestService.AllTrackedNoNewFiles | node-api/src/plugins/upload-source/services/manifest.service.ts:47-52 | when every file's relative path is an entry, no file is new |
| ManifestService.UpdatedManifestHasNoNewFiles | node-api/src/plugins/upload-source/services/manifest.service.ts:24-52 | after the manifest is updated with the new files, none of them is new any more |
| ManifestService.TrackedAfterAppend | node-api/src/plugins/upload-source/services/manifest.service.ts:37-52 | files whose relative paths were appended to the entries are not new |
| UploadFileSystem.WalkAppend | node-api/src/plugins/upload-source/services/fileSystem.service.ts:12-20 | walking the entries of a directory in turn concatenates the files each entry yields |
| UploadFileSystem.WalkExact | node-api/src/plugins/upload-source/services/fileSystem.service.ts:9-21 | the walk lists exactly the files below the directory that the entry tree holds |
| UploadFileSystem.GetAllFilesExact | node-api/src/plugins/upload-source/services/fileSystem.service.ts:5-25 | for a tree describing the disk, the walk lists exactly the files below the manifest's directory, no directory, and the manifest itself |
| UploadFileSystem.FileCollector.ReadDirRecursive | node-api/src/plugins/upload-source/services/fileSystem.service.ts:9-21 | the recursive walk appends every file of the tree, depth first in entry order |
| UploadFileSystem.GetAllFiles | node-api/src/plugins/upload-source/services/fileSystem.service.ts:5-25 | all files are collected starting from the manifest's directory |
| UploadFileSystem.ReadFileContent | node-api/src/plugins/upload-source/services/fileSystem.service.ts:27-33 | reading succeeds exactly when the file exists and returns its content; a failure is rethrown as "Error reading file ..." |
| UploadFileSystem.GetFileStats | node-api/src/plugins/upload-source/services/fileSystem.service.ts:35-37 | `stat` succeeds exactly when the path is accessible |
| UploadFileSystem.RelativeToSelf | node-api/src/plugins/upload-source/services/fileSystem.service.ts:39-41 | the manifest's path relative to its own directory is its file name |
| UploadFileSystem.RelativeOfJoin | node-api/src/plugins/upload-source/services/fileSystem.service.ts:39-41 | a normalised relative path joined onto the manifest's directory comes back unchanged |
| VersionTracking.WithFlag | node-api/src/plugins/upload-source/services/versionTracking.service.ts:31-37 | the upsert sets the flag and keeps an existing record's version; a new record has no version |
| VersionTracking.FindOrCreate | node-api/src/plugins/sync-source/services/source.service.ts:90-98 | the record is created with version 0.0.1 and unlocked only when missing; every other record stays |
| VersionTracking.GenerateVersionIncrement | node-api/src/plugins/upload-source/services/versionTracking.service.ts:39-41 | a new file is a minor increment, any other a patch |
| VersionTracking.Acquire | node-api/src/plugins/upload-source/services/versionTracking.service.ts:21-37 | checking then setting the lock fails with a 409 exactly when the source is already locked, and otherwise leaves it locked |
| VersionTracking.AcquireExcludes | node-api/src/plugins/upload-source/services/versionTracking.service.ts:21-37 | a held lock refuses a second acquisition, and releasing it restores every record's flag and leaves other sources alone |
| VersionTracking.TrackingStore.CheckUpdateInProgress | node-api/src/plugins/upload-source/services/versionTracking.service.ts:21-29 | the check fails with "An update is already in progress for this source" exactly when the source is locked |
| VersionTracking.TrackingStore.SetUpdateInProgress | node-api/src/plugins/upload-source/services/versionTracking.service.ts:31-37 | the upsert replaces only that source's record, with the flag set |
| VersionTracking.TrackingStore.FindOrCreateRecord | node-api/src/plugins/sync-source/services/source.service.ts:90-98 | the store holds the find-or-create result |
| VersionTracking.TrackingStore.Stamp | node-api/src/plugins/sync-source/services/source.service.ts:173-177 | the source gets the new version with the lock released, and nothing else changes |
| UploadService.Wrap | node-api/src/plugins/upload-source/services/upload.service.ts:202 | an HTTP error is rethrown as is; any other error becomes the 500 "Error uploading files to remote location" |
| UploadService.Lookup | node-api/src/plugins/upload-source/services/upload.service.ts:65 | looking up the remote contents finds a value exactly when the key is present, and then that value |
| UploadService.PrepareUpload | node-api/src/plugins/upload-source/services/upload.service.ts:11-22 | a locked source is a 409 with the records untouched; otherwise the lock is taken, an empty source name is a 404, and preparation succeeds exactly when the source has a name and a manifest path, returning that path and name |
| UploadService.ManifestPathClean | node-api/src/plugins/upload-source/services/upload.service.ts:20 | a resolved manifest path is a clean, non-empty absolute path |
| UploadService.GetValidFiles | node-api/src/plugins/upload-source/services/upload.service.ts:24-31 | one valid file per manifest entry |
| UploadService.ValidFileResolves | node-api/src/plugins/upload-source/services/upload.service.ts:26-30 | an entry's absolute path is the entry joined onto the manifest's directory |
| UploadService.ValidFileIsMappedFile | node-api/src/plugins/upload-source/services/upload.service.ts:26-30 | for any source type but `node-api`, the push engine's file for an entry is the file the pull engine writes for it |
| UploadService.RelativeOfValidFile | node-api/src/plugins/upload-source/services/upload.service.ts:26-37 | a normalised entry's file, taken relative to the manifest again, is the entry itself |
| UploadService.NormalisedManifestHasNoNewFiles | node-api/src/plugins/upload-source/services/upload.service.ts:132-142 | when every entry is normalised, no valid file is new, since each file's relative path is its own entry |
| UploadService.DotEntryIsNew | node-api/src/plugins/upload-source/services/upload.service.ts:132-142 | an entry `./a.ts` is its own new file: its relative path `a.ts` is not an entry |
| UploadService.RemoteContents | node-api/src/plugins/upload-source/services/upload.service.ts:33-47 | the remote map holds exactly the relative paths whose fetch succeeded, each with its fetched content |
| UploadService.RemoteContentsSnoc | node-api/src/plugins/upload-source/services/upload.service.ts:36-44 | one more file adds its content when the fetch succeeds and otherwise changes nothing |
| UploadService.BuildRemoteContentsMap | node-api/src/plugins/upload-source/services/upload.service.ts:33-47 | the loop builds exactly the remote map of the valid files' relative paths |
| UploadService.Dedup | node-api/src/plugins/upload-source/services/upload.service.ts:154 | `Array.from(new Set(...))` keeps exactly the same members, each once, in first-occurrence order |
| UploadService.DedupDistinct | node-api/src/plugins/upload-source/services/upload.service.ts:154 | a list without repeats is kept as it is |
| UploadService.AllFiles | node-api/src/plugins/upload-source/services/upload.service.ts:154-159 | the files to upload are the distinct valid files, followed by the manifest exactly when its text differs from the remote copy and it is not listed |
| UploadService.StatAll | node-api/src/plugins/upload-source/services/upload.service.ts:162-169 | stat-ing all files succeeds exactly when every file is accessible |
| UploadService.UploadOneSpec | node-api/src/plugins/upload-source/services/upload.service.ts:58-105 | a file is sent exactly when it is readable and needed (the manifest when its text differs, another file when new or its remote copy differs), under its relative path, as a minor increment exactly when new; skipped, added and failed statuses are reported as the upload job decides, and a failing upload of a plain file is recorded as failed and rethrown |
| UploadService.UploadTask | node-api/src/plugins/upload-source/services/upload.service.ts:58-105 | one upload job, step by step, does what the upload job specification says |
| UploadService.Attempts | node-api/src/plugins/upload-source/services/upload.service.ts:58 | one attempt per file, each as the upload job specification says |
| UploadService.UploadFilesSnoc | node-api/src/plugins/upload-source/services/upload.service.ts:58-107 | one more file appends its status and upload and keeps the first error |
| UploadService.UploadFilesFails | node-api/src/plugins/upload-source/services/upload.service.ts:107 | the awaited tasks fail exactly when some task fails |
| UploadService.UploadFilesFirstError | node-api/src/plugins/upload-source/services/upload.service.ts:107 | a failure reported is the first failing task's error |
| UploadService.UploadFilesNoFailed | node-api/src/plugins/upload-source/services/upload.service.ts:96-107 | when no task throws, no status is "failed" |
| UploadService.UploadFilesSent | node-api/src/plugins/upload-source/services/upload.service.ts:58-105 | every upload sent comes from one of the files' tasks |
| UploadService.UploadFiles | node-api/src/plugins/upload-source/services/upload.service.ts:49-109 | the upload loop yields the statuses or first error, and exactly the uploads, of the specification |
| UploadService.UploadBody | node-api/src/plugins/upload-source/services/upload.service.ts:126-199 | a successful push always answers with `success: true` |
| UploadService.RunBody | node-api/src/plugins/upload-source/services/upload.service.ts:175-198 | once every file is stat-ed, the body sends exactly the uploads of the upload run and answers success when it answers at all |
| UploadService.Prepare | node-api/src/plugins/upload-source/services/upload.service.ts:11-22 | preparation against the tracking store leaves the records and result of the specification |
| UploadService.UploadPrepared | node-api/src/plugins/upload-source/services/upload.service.ts:132-198 | the body after preparation sends and answers as the body specification says |
| UploadService.FinishUpload | node-api/src/plugins/upload-source/services/upload.service.ts:175-198 | running the upload jobs and counting failures sends and answers as the run specification says |
| UploadService.UploadChangedFiles | node-api/src/plugins/upload-source/services/upload.service.ts:126-206 | a push leaves the tracking records, the uploads sent and the answer as the push specification says |
| UploadService.PushReleasesFlag | node-api/src/plugins/upload-source/services/upload.service.ts:203-205 | whatever happens, the push ends with the source unlocked, creates its record when missing and touches no other source |
| UploadService.PushConflictClearsFlag | node-api/src/plugins/upload-source/services/upload.service.ts:126-206 | a push refused with a 409 because the source is locked sends nothing and still clears the lock another push holds |
| UploadService.PushMissingManifest | node-api/src/plugins/upload-source/services/upload.service.ts:126-206 | a source without a manifest path is answered with the generic 500 and nothing is sent |
| UploadService.PushEmptyManifest | node-api/src/plugins/upload-source/services/upload.service.ts:132-135 | a manifest without entries answers "No files found in source directory" and sends nothing |
| UploadService.PushNeverCountsFailures | node-api/src/plugins/upload-source/services/upload.service.ts:189-193 | a failing task rejects the run before the count, so the "Failed to upload N out of M files" answer is never produced |
| UploadService.RunCountsNoFailures | node-api/src/plugins/upload-source/services/upload.service.ts:107-108 | a run that completes holds no failed status |
| UploadService.BodySentByTasks | node-api/src/plugins/upload-source/services/upload.service.ts:126-199 | a push sends nothing but the uploads of its tasks |
| UploadService.RunOnlyPatches | node-api/src/plugins/upload-source/services/upload.service.ts:94 | without new files every upload is a patch |
| UploadService.BodyOnlyPatches | node-api/src/plugins/upload-source/services/upload.service.ts:132-181 | with normalised entries the body only ever sends patch increments |
| UploadService.PushOnlyPatches | node-api/src/plugins/upload-source/services/upload.service.ts:126-206 | with normalised entries a push never sends a minor increment |
| TabsView.Without | react-antd-admin/src/stores/tabs-view.store.ts:41 | filtering out a path never lengthens the tab list |
| TabsView.WithoutMembers | react-antd-admin/src/stores/tabs-view.store.ts:41 | a tab survives the filter exactly when it was open and has another path |
| TabsView.SweepUnique | react-antd-admin/src/stores/tabs-view.store.ts:35-40 | with unique paths, the splicing `forEach` removes exactly the target's tab and leaves `lastIndex` one before it (0 when absent) |
| TabsView.SweepNoTarget | react-antd-admin/src/stores/tabs-view.store.ts:35-40 | a sweep over tabs without the target changes nothing |
| TabsView.WithoutUnique | react-antd-admin/src/stores/tabs-view.store.ts:41 | a path held only by tab k filters out to the list without tab k |
| TabsView.RemoveTabPresent | react-antd-admin/src/stores/tabs-view.store.ts:24-50 | removing an open, non-first tab drops it, and when it was active the tab before it becomes active |
| TabsView.RemoveTabAbsent | react-antd-admin/src/stores/tabs-view.store.ts:24-50 | removing a path no tab has keeps the tabs, and makes the first tab active if that path was the active one |
| TabsView.RemoveTabUnique | react-antd-admin/src/stores/tabs-view.store.ts:24-50 | with unique paths `removeTab` never fails; the first tab is never removed, and otherwise the result is the list without the target |
| TabsView.WithoutKeepsUnique | react-antd-admin/src/stores/tabs-view.store.ts:41 | removing tabs keeps paths unique |
| TabsView.Find | react-antd-admin/src/stores/tabs-view.store.ts:56 | `find` yields a tab exactly when one has the path, and then an open tab with that path |
| TabsView.TabsStore.SetActiveTab | react-antd-admin/src/stores/tabs-view.store.ts:14-16 | only the active tab changes |
| TabsView.TabsStore.AddTab | react-antd-admin/src/stores/tabs-view.store.ts:17-23 | a tab is appended only when its path is not open yet, it becomes active, paths stay unique and the active tab is always open |
| TabsView.TabsStore.RemoveTab | react-antd-admin/src/stores/tabs-view.store.ts:24-50 | the store ends as the removal specification says, and is untouched when the reducer would throw on an empty list |
| TabsView.TabsStore.RemoveAllTab | react-antd-admin/src/stores/tabs-view.store.ts:51-54 | no tabs remain and the current location becomes active |
| TabsView.TabsStore.RemoveOtherTab | react-antd-admin/src/stores/tabs-view.store.ts:55-60 | with the active tab open, only the first tab and the active one remain (once when they coincide); otherwise the reducer throws and nothing changes |
| TabsView.RemoveOtherKeepsActive | react-antd-admin/src/stores/tabs-view.store.ts:55-60 | after closing the other tabs the active tab is still open, the first tab is kept and at most two remain |
| GlobalStore.RemoveAll | react-antd-admin/src/stores/global.store.ts:44-46 | the requests left are exactly those with another id, never more than before |
| GlobalStore.RemoveAllAppend | react-antd-admin/src/stores/global.store.ts:45 | removing an id distributes over concatenated request lists |
| GlobalStore.RemoveAbsent | react-antd-admin/src/stores/global.store.ts:45 | removing an id that is not pending changes nothing |
| GlobalStore.AppendThenRemove | react-antd-admin/src/stores/global.store.ts:40-46 | appending a new request and then removing it restores the list |
| GlobalStore.RemoveIdempotent | react-antd-admin/src/stores/global.store.ts:44-46 | removing the same id twice is the same as once |
| GlobalStore.InitialTheme | react-antd-admin/src/stores/global.store.ts:10-14 | the stored theme wins; without one the theme is dark exactly when the system prefers dark |
| GlobalStore.GlobalState.SetGlobalState | react-antd-admin/src/stores/global.store.ts:22-38 | each field the payload gives replaces the state's, and the others stay |
| GlobalStore.GlobalState.AppendRequest | react-antd-admin/src/stores/global.store.ts:40-42 | the request id is appended and the theme is untouched |
| GlobalStore.GlobalState.RemoveRequest | react-antd-admin/src/stores/global.store.ts:44-46 | every request with that id is removed and the theme is untouched |
| AuthStore.ErrorOrNull | react-antd-admin/src/stores/user.store.ts:21 | a non-empty error is kept; an empty or missing one becomes null |
| AuthStore.FlagOrFalse | react-antd-admin/src/stores/user.store.ts:22 | the user is authenticated exactly when the payload says `true` |
| AuthStore.AuthState.SetAuthState | react-antd-admin/src/stores/user.store.ts:20-24 | all three fields are replaced: the error or null, the flag or false, the user or null |
| AuthStore.AuthState.ClearError | react-antd-admin/src/stores/user.store.ts:25-27 | only the error is cleared |
| AuthStore.SignInClearsError | react-antd-admin/src/stores/user.store.ts:20-24 | a sign-in payload without an error leaves the user signed in with no error, whatever was recorded before |
| RoleMenu.GetMenuItemFromRole | react-antd-admin/src/layout/Menu.tsx:16-36 | an item is shown exactly when its own roles, or else its parent's, are absent or include the user's role; it is returned with those effective roles |
| RoleMenu.MapRoute | react-antd-admin/src/layout/Menu.tsx:40-55 | a kept item is admitted and keeps its path, name and effective roles; a leaf is kept exactly when admitted; an item with children is kept exactly when admitted and some child survives, and then carries the surviving children |
| RoleMenu.LoopRoutes | react-antd-admin/src/layout/Menu.tsx:38-57 | filtering never lengthens a menu level |
| RoleMenu.GetMenuList | react-antd-admin/src/layout/Menu.tsx:10-14 | the menu for a role has at most as many top-level items as the route table |
| RoleMenu.LoopRoutesAppend | react-antd-admin/src/layout/Menu.tsx:39-56 | each route is filtered on its own, so the filter distributes over concatenation |
| RoleMenu.LoopRoutesFromInput | react-antd-admin/src/layout/Menu.tsx:39-56 | every item in the menu comes from a route with the same path and name |
| RoleMenu.MapRouteVisible | react-antd-admin/src/layout/Menu.tsx:40-55 | a kept item, and every descendant it keeps, admits the role |
| RoleMenu.LoopRoutesVisible | react-antd-admin/src/layout/Menu.tsx:38-57 | every item in a filtered menu, at every depth, admits the role, and no item with children is left with none |
| RoleMenu.MapRouteIdempotent | react-antd-admin/src/layout/Menu.tsx:40-55 | filtering a kept item again gives the same item |
| RoleMenu.LoopRoutesIdempotent | react-antd-admin/src/layout/Menu.tsx:38-57 | filtering a filtered menu again changes nothing |
| RoleMenu.MapRouteUnrestricted | react-antd-admin/src/layout/Menu.tsx:33-34 | an item without roles anywhere below it is kept unchanged |
| RoleMenu.LoopRoutesUnrestricted | react-antd-admin/src/layout/Menu.tsx:38-57 | a route table without roles is shown in full to every role |
| MenuPath.AnyChildCovers | react-antd-admin/src/utils/menu.ts:8-13 | the inner loop finds a child exactly when some child's path is the pathname or a path segment prefix of it |
| MenuPath.FirstSelectedWins | react-antd-admin/src/utils/menu.ts:3-17 | the parent path is that of the first route that, itself or through a child, covers the pathname |
| MenuPath.NothingSelected | react-antd-admin/src/utils/menu.ts:15-16 | when no route covers the pathname the answer is the empty string |
| MenuPath.AnswerIsSelected | react-antd-admin/src/utils/menu.ts:3-17 | a non-empty answer is the path of a route that covers the pathname |
| MenuPath.CoversBelow | react-antd-admin/src/utils/menu.ts:5 | a path covers every pathname below it |
| MenuPath.NoPartialSegment | react-antd-admin/src/utils/menu.ts:5 | a path does not cover a pathname that merely extends its last segment, such as `/user` and `/users` |
| Ability.RuleFor | react-antd-admin/src/configs/ability.ts:31-51 | a special resource with a special action gives `manage all`, a special resource alone gives the action on `all`, a special action alone gives `manage` on the resource, and anything else the action on the resource |
| Ability.RulesOfPermissions | react-antd-admin/src/configs/ability.ts:31-52 | one rule per permission |
| Ability.AbilityBuilder.Can | react-antd-admin/src/configs/ability.ts:22 | `can` appends one rule |
| Ability.DefineAbilityFor | react-antd-admin/src/configs/ability.ts:21-55 | the builder ends with exactly the rules the role's permissions give, or `manage all` for the superadmin |
| Ability.RulePerPermission | react-antd-admin/src/configs/ability.ts:31-52 | the i-th rule is the rule of the i-th permission |
| Ability.SuperadminManagesAll | react-antd-admin/src/configs/ability.ts:25-28 | the superadmin gets the single rule `manage all`, whatever permissions it lists |
| Ability.NoPermissionsNoRules | react-antd-admin/src/configs/ability.ts:31 | a non-superadmin without permissions, or with an empty list, can do nothing |
| Ability.AgreesWithBackend | react-antd-admin/src/configs/ability.ts:21-55 | for a plain action and resource, the front end allows exactly what the authz service's permission matching grants |
| Ability.RuleGrants | react-antd-admin/src/configs/ability.ts:31-51 | one rule allows a plain action on a plain resource exactly when its permission grants it in the authz service |
| FormErrors.IndexOfKey | react-antd-admin/src/hooks/useForm.tsx:32 | the first entry of the error map under a field name, or none when no entry has that name |
| FormErrors.MessagesFor | react-antd-admin/src/hooks/useForm.tsx:23-40 | a field's messages are drawn from the issues, at most one per issue |
| FormErrors.MapErrorFromZodIssue | react-antd-admin/src/hooks/useForm.tsx:23-40 | the reduce builds the error map, and every field name looks up exactly the messages of the issues whose joined path is that name, in issue order |
| FormErrors.IndexOfKeyIs | react-antd-admin/src/hooks/useForm.tsx:32 | any index meeting the first-match description is the one the lookup returns |
| FormErrors.SameKeysSameIndex | react-antd-admin/src/hooks/useForm.tsx:35 | pushing onto an entry leaves the field names, and so every lookup, unchanged |
| FormErrors.AppendIndex | react-antd-admin/src/hooks/useForm.tsx:33 | adding a new entry for an absent field name finds it last, and leaves other lookups alone |
| FormErrors.RecordLookup | react-antd-admin/src/hooks/useForm.tsx:31-36 | recording one issue adds its message to its own field only |
| FormErrors.ErrorMapLookup | react-antd-admin/src/hooks/useForm.tsx:23-40 | the error map holds, per field name, the messages of the issues with that joined path in issue order |
| FormErrors.TotalUpdate | react-antd-admin/src/hooks/useForm.tsx:35 | replacing one entry changes the message count by the difference of the two entries |
| FormErrors.RecordKeepsShape | react-antd-admin/src/hooks/useForm.tsx:31-36 | recording an issue keeps field names distinct and entries non-empty, and adds exactly one message |
| FormErrors.ErrorMapShape | react-antd-admin/src/hooks/useForm.tsx:23-40 | the error map has distinct field names, no empty entry, and exactly one message per issue |
| FormErrors.MessagesForSource | react-antd-admin/src/hooks/useForm.tsx:31 | a field name with messages is the joined path of some issue |
| FormErrors.ZodValidator | react-antd-admin/src/hooks/useForm.tsx:42-59 | the validator throws exactly when parsing fails with a Zod error that has messages for the field, and throws the last of them |
| FormErrors.FieldsOf | react-antd-admin/src/hooks/useForm.tsx:99-102 | one field entry per key of the error map |
| FormErrors.OnFinish | react-antd-admin/src/hooks/useForm.tsx:89-110 | without a schema or on a successful parse the data is submitted; on a Zod failure the fields get their errors set and the submission carries the error |
| FormErrors.FieldsNameIssuePaths | react-antd-admin/src/hooks/useForm.tsx:97-102 | each field set on failure is named by some issue's path and carries exactly that path's messages |
| FormErrors.FindField | react-antd-admin/src/hooks/useForm.tsx:79-82 | the first field whose name contains every part of the id, or none |
| FormErrors.OnChange | react-antd-admin/src/hooks/useForm.tsx:74-87 | the changed field's errors are cleared exactly when the first field matching its id has errors |
| Paths.Fold | node-api/src/plugins/sync-source/utils/pathMapper.ts:17-26 | normalising segments without slashes below a normalised directory gives a normalised path |
| Paths.FoldAppend | node-api/src/plugins/sync-source/utils/pathMapper.ts:17-26 | normalising a concatenation is normalising the first part, then the second below it |
| Paths.FoldClean | node-api/src/plugins/sync-source/utils/pathMapper.ts:17-26 | segments that are already normal are simply appended |
| Paths.ResolveRender | node-api/src/plugins/sync-source/utils/pathMapper.ts:17-26 | resolving the text of a normalised absolute path gives that path back |
| Paths.ResolveCollapse | node-api/src/plugins/sync-source/utils/pathMapper.ts:17-26 | repeated slashes do not change what a path resolves to |
| Paths.CommonPrefix | node-api/src/plugins/upload-source/services/fileSystem.service.ts:39-41 | the longest common leading part of two paths, after which they differ |
| Paths.RelativeBelow | node-api/src/plugins/upload-source/services/fileSystem.service.ts:39-41 | the path of a descendant relative to its ancestor is the descendant's remaining segments joined by '/' |
| LocalDisk.Mkdir | node-api/src/plugins/sync-source/services/fileSystem.service.ts:87 | a recursive mkdir fails exactly when the directory or one of its ancestors is a regular file, and otherwise leaves files alone and only adds directories, the requested one among them |
| LocalDisk.MkdirExisting | node-api/src/plugins/sync-source/services/fileSystem.service.ts:87 | a recursive mkdir of an existing directory changes nothing and succeeds |
| LocalDisk.MkdirKeepsWellFormed | node-api/src/plugins/sync-source/services/fileSystem.service.ts:87 | a successful mkdir keeps the tree well formed: every ancestor of a file or directory is a directory, and nothing is both |
| LocalDisk.ReadFile | node-api/src/plugins/sync-source/services/fileSystem.service.ts:97 | reading succeeds exactly on an existing file and returns its content |
| LocalDisk.WriteFile | node-api/src/plugins/sync-source/services/fileSystem.service.ts:110 | writing succeeds exactly when the path is no directory, is writable and its parent exists, and then sets that one file's content |
| LocalDisk.WriteKeepsWellFormed | node-api/src/plugins/sync-source/services/fileSystem.service.ts:110 | a successful write keeps the tree well formed |
| RoleGate.GetPermissions | node-api/src/plugins/auth/utils/role.ts:5-15 | the role `admin` gets the admin permission table, every other role the user table |
| Cookies.GetDomainsStages | node-api/src/plugins/auth/utils/cookies.ts:17-26 | the domain list is the split, trimmed, non-localhost entries plus the allowed localhost, each stripped of its scheme |
| Ability.AbilityBuilder.constructor | react-antd-admin/src/configs/ability.ts:22 | a new builder holds no rules |
| TabsView.TabsStore.constructor | react-antd-admin/src/stores/tabs-view.store.ts:5-8 | the initial state has the current pathname active and no tabs |
| GlobalStore.GlobalState.constructor | react-antd-admin/src/stores/global.store.ts:11-16 | the initial theme is the stored one, else the system preference, and no request is pending |
| AuthStore.AuthState.constructor | react-antd-admin/src/stores/user.store.ts:10-14 | the initial state has no user, is not authenticated and has no error |
| UserRoles.UserRoleManager.constructor | node-api/src/plugins/users/utils/userRole.ts:4 | the manager starts with the basic roles |
| UploadFileSystem.FileCollector.constructor | node-api/src/plugins/upload-source/services/fileSystem.service.ts:7 | the collected file list starts empty |

## Left out

- `lastUpdated` and other timestamps are carried as the given `now` and are not checked further.
- HTTP transport, status handling inside axios and response bodies beyond the fields used are left out; the remote service is an oracle.
- `Promise.all` over the uploads of a push is modelled one call after another: every upload is attempted and the first failure in list order is reported; interleaving is not modelled. The installed checks `getSources` runs under `Promise.all` never throw, so they are modelled as a plain map over the sources. The file syncs of a pull run one after another in the source itself and stop at the first failure.
- `rollbackChanges` logs and does nothing in the source, so it is a step without effect.
- SourceService.ListFrom: the remote listing is a finite snapshot of pages, so a remote that keeps raising `totalPages` ends in a missing page instead of looping for ever as the source would.
- Logging, `console.table` and other console output are left out.
- Restarts are modelled as the list of commands issued; `sleep`, process execution and their timing are left out.
- Endpoint path matching by regular expression is a `matches` parameter; the regular-expression engine is not modelled.
- Case conversion and trimming cover ASCII letters and ASCII whitespace only, not the full Unicode tables of JavaScript.
- Database failures are modelled only where the code handles them: a failing role creation in the migration (`createFails`) and a failing user update (`updateError`). Every other database operation (the version-tracking records, the authz collections, resource creation in the migration) always succeeds.
- Mongoose schema validation, unique indexes, `sort`, `populate` and `select` are left out; stored records are the datatypes of the model.
- Database ids, `genKey` and other random values are given as parameters.
- Pagination states the query engine's handling of `skip` and `limit` outright (a limit of 0 means no limit, a negative limit counts by its absolute value, a negative skip is refused); the filter is a predicate and documents come in store order.
- Zod issue paths are modelled as string segments; numeric path segments are written out as their decimal text.
- The key order of JavaScript objects (integer-like keys first) is not modelled: error maps and role maps keep insertion order.
- Prototype keys of plain objects and explicit `undefined` values in `Object.assign` payloads are not modelled.
- The theme read from `localStorage` is taken to be a valid theme.
- The front end's permission constants file is not part of this model; the front end uses the same permission values as the back end.
- The menu filter builds new menu items; the source overwrites `children` on the shared items in place (Menu.tsx:47), so the aliasing is not captured.
- Writing the `theme-mode` attribute on the document body (global.store.ts:25-37) is DOM output and is left out.
- Cookies.GetDomains: a domain keeps any second scheme after the first is stripped, as the source's single replace does.
- FormErrors.OnFinish: a rejection that is not a Zod error leaves no effects, because the source's error handler itself throws on it.
- RoleMigration.MigrationStore.MigrateUsers applies each user update to the in-memory user list instead of a database collection.
- The basic roles of the user-role manager come from a constants file that is not part of this model; they are a constructor parameter.
- `getRoles`, `getResources` and `getEndpointConfigs` return the stored lists unchanged and have no members of their own.
- UploadFileSystem: `getFileStats` returns file metadata that the engines never use; it is left out.
- The Menu component's rendering and its `onMenuClick` and `onOpenChange` handlers are left out: they only navigate and record which submenus are open.
- The admin and user permission tables of the role middleware are parameters, because their contents are constants that do not change the logic.
