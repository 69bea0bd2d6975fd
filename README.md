# Route permissions of an admin front end

This project models the permission store of a Vue admin template: the part
that decides which routes a user may see from the user's roles, and the store
module that publishes those routes.

- **Route filter.** `hasPermission` decides whether one route is visible.
  A route without `meta.roles` is visible to everyone. A route with
  `meta.roles` is visible when the user holds at least one of those roles. An
  empty `meta.roles` list is still present, so it lets nobody in.
  `filterAsyncRoutes` walks the route tree and drops every route that is not
  visible, together with its whole subtree. It keeps a shallow copy of each
  visible route, and the copy's `children`, when present, are filtered in turn.
- **Permission store.** The state holds `routes` and `addRoutes`, and both
  start empty. `SET_ROUTES(r)` sets `addRoutes` to `r` and `routes` to the
  constant routes followed by `r`. `generateRoutes(roles)` picks the granted
  routes: every async route when `roles` contains `'admin'`, the filtered async
  routes otherwise. It commits them once and returns them.

Everything is in `permission.dfy`, module `Permission`:

- `Route` is a datatype. Its `roles` field is `Option<seq<Role>>`. `None`
  means the route has no `meta` or no `meta.roles`. Its `children` field is
  `Children`, which is either `Absent` or `Present(nodes)`. A present but
  empty list therefore stays distinct from a missing one.
- `Filter` is the recursive specification of the filter.
- `FilterAsyncRoutes` is the source's `forEach` loop. It is a recursive method
  with a `while` loop, proved equal to `Filter`.
- `PermissionStore` is a class. Its constructor takes the constant routes and
  the async routes as read-only `const` fields. It holds `routes` and
  `addRoutes` as mutable fields, plus a ghost log of every committed list.

The admin bypass is its own branch. It is not the same as filtering for the
role `'admin'`: see `AdminBypassIsNotFiltering`. It does give the same result
as a filter that lets the super-role through every route, because filtering a
tree whose routes are all visible returns the tree unchanged
(`FilterKeepsPermitted`).

## Model

| member | source | states |
|---|---|---|
| `Permission.SomeRoleIn` | src/store/modules/permission.js:12 | `roles.some(role => allowed.includes(role))` holds exactly when some user role is in the allowed list |
| `Permission.HasPermission` | src/store/modules/permission.js:10-16 | visible when `meta.roles` is missing; otherwise visible exactly when some user role is in `meta.roles`; an empty `meta.roles` hides the route; with no user roles only unrestricted routes are visible |
| `Permission.HasPermissionMonotone` | src/store/modules/permission.js:10-16 | if every role of `r1` is also in `r2`, a route visible to `r1` is visible to `r2` |
| `Permission.Prune` | src/store/modules/permission.js:28-32 | the copy of a kept route equals the input in every field except `children`; `children` is present in the copy exactly when it was present in the input, and is no longer |
| `Permission.Filter` | src/store/modules/permission.js:24-38 | the filtered list is never longer than the input |
| `Permission.FilterAsyncRoutes` | src/store/modules/permission.js:24-38 | the `forEach` loop, with its recursive call on `children`, computes exactly `Filter(routes, roles)` |
| `Permission.KeptIndices` | src/store/modules/permission.js:27-35 | the positions of the visible routes, strictly increasing, each in range and visible, and containing every visible position |
| `Permission.FilterSelectsKept` | src/store/modules/permission.js:24-38 | the output has one entry per visible route, in input order, and entry `k` is the pruned copy of the `k`-th visible route |
| `Permission.HiddenRouteContributesNothing` | src/store/modules/permission.js:29-34 | removing a route that is not visible from the input leaves the output unchanged |
| `Permission.HiddenSubtreeIrrelevant` | src/store/modules/permission.js:29-34 | the children of a route that is not visible are never looked at: replacing them with anything leaves the output unchanged |
| `Permission.FilterAllPermitted` | src/store/modules/permission.js:24-38 | every route of the output, at every depth, is visible to the roles |
| `Permission.FilterKeepsPermitted` | src/store/modules/permission.js:24-38 | a tree whose routes are all visible at every depth is returned unchanged |
| `Permission.FilterIdempotent` | src/store/modules/permission.js:24-38 | filtering twice with the same roles gives the same result as filtering once |
| `Permission.SubForestReflexive` | src/store/modules/permission.js:56-57 | every route list is a sub-forest of itself, which is the admin branch's case |
| `Permission.FilterIsSubForest` | src/store/modules/permission.js:24-38 | the output is an order-preserving sub-forest of the input at every depth: each output route is a copy of a distinct input route, in the same order, with sub-forest children |
| `Permission.FilterMonotone` | src/store/modules/permission.js:10-16 | if every role of `r1` is in `r2`, then the output for `r1` is a sub-forest of the output for `r2` |
| `Permission.Accessible` | src/store/modules/permission.js:55-60 | the granted routes are never more than the async routes |
| `Permission.AccessibleIsSubForest` | src/store/modules/permission.js:55-60 | whatever the roles, with or without `'admin'`, the granted routes are an order-preserving sub-forest of the async routes |
| `Permission.AccessibleMonotone` | src/store/modules/permission.js:55-60 | more roles never grant less, the admin bypass included |
| `Permission.AdminBypassIsNotFiltering` | src/store/modules/permission.js:56-59 | an editors-only route is granted to an admin by the bypass, but filtering for `['admin']` drops it |
| `Permission.PermissionStore.constructor` | src/store/modules/permission.js:40-43 | the state starts with `routes` and `addRoutes` empty and nothing committed; the constant and async routes are the given ones |
| `Permission.PermissionStore.SetRoutes` | src/store/modules/permission.js:45-50 | `addRoutes` becomes `r`, `routes` becomes the constant routes followed by `r`, and exactly one commit of `r` is logged |
| `Permission.PermissionStore.GenerateRoutes` | src/store/modules/permission.js:53-63 | returns the async routes unchanged when `'admin'` is among the roles, and the filtered async routes otherwise; commits exactly that list once, so `addRoutes` is the returned list and `routes` is the constant routes followed by it |

## Left out

- The `Promise` around `generateRoutes` is left out. The computation inside it is synchronous, so the action is a method that returns the granted routes.
- The Vuex wiring is left out: `commit('SET_ROUTES', …)` is a direct call to `SetRoutes`, and `namespaced` and the default export are not modelled.
- The contents of `asyncRoutes` and `constantRoutes` come from `@/router`, which is not part of this model. They are constructor parameters.
- The `asyncRoutes || []` fallback is left out. It only guards against an undefined import, and a Dafny sequence is always defined.
- Route fields other than the path, `meta.roles` and `children` are one opaque `payload` string. The source copies them unchanged, and so does the model.
- `meta.roles` and the user's roles are modelled as lists of strings only. The source would also accept other truthy values with an `includes` method, such as a string, which matches substrings. Those are not modelled.
- Aliasing is left out. The source's `addRoutes` is the very array it was given, and a shallow copy shares every field except `children` with its original. The model uses values, so no later mutation of a shared array is captured.
