/*
 * The permission store of an admin front end: which routes a user with a
 * given list of roles may see, and the store that publishes them.
 *
 * Routes are values; filtering builds a pruned copy and never changes its
 * input. The store is an object whose two route lists are replaced in place.
 */
module Permission {

  datatype Option<+T> = None | Some(value: T)

  type Role = string

  /** The role that bypasses filtering altogether. */
  const Admin: Role := "admin"

  /**
   * One route record. `roles` is `meta.roles`: `None` when the route has no
   * `meta` or its `meta` has no `roles`, `Some(rs)` otherwise (an empty list
   * is present, and lets nobody in). `payload` stands for every other field
   * (component, name, title, icon, ...), which is copied along unchanged.
   */
  datatype Route = Route(
    path: string,
    payload: string,
    roles: Option<seq<Role>>,
    children: Children)

  /** A route's `children` field: missing, or present (possibly empty). */
  datatype Children = Absent | Present(nodes: seq<Route>)

  // ---------------------------------------------------------------------------
  // hasPermission

  /** `roles.some(role => allowed.includes(role))`, scanning `roles` left to right. */
  function SomeRoleIn(roles: seq<Role>, allowed: seq<Role>): (b: bool)
    ensures b <==> exists i :: 0 <= i < |roles| && roles[i] in allowed
  {
    if roles == [] then false
    else if roles[0] in allowed then true
    else
      var rest := SomeRoleIn(roles[1..], allowed);
      assert forall i :: 1 <= i < |roles| ==> roles[i] == roles[1..][i - 1];
      rest
  }

  /** May a user holding `roles` see `route` itself (its children aside)? */
  function HasPermission(roles: seq<Role>, route: Route): (b: bool)
    ensures route.roles.None? ==> b
    ensures route.roles.Some? ==>
      (b <==> exists i :: 0 <= i < |roles| && roles[i] in route.roles.value)
    ensures route.roles == Some([]) ==> !b
    ensures roles == [] ==> (b <==> route.roles.None?)
  {
    match route.roles
    case None => true
    case Some(allowed) => SomeRoleIn(roles, allowed)
  }

  /** Every role of `r1` is also a role of `r2`. */
  ghost predicate RolesWithin(r1: seq<Role>, r2: seq<Role>)
  {
    forall r :: r in r1 ==> r in r2
  }

  lemma HasPermissionMonotone(r1: seq<Role>, r2: seq<Role>, route: Route)
    requires RolesWithin(r1, r2)
    requires HasPermission(r1, route)
    ensures HasPermission(r2, route)
  {
    if route.roles.Some? {
      var i :| 0 <= i < |r1| && r1[i] in route.roles.value;
      assert r1[i] in r2;
      var j :| 0 <= j < |r2| && r2[j] == r1[i];
    }
  }

  // ---------------------------------------------------------------------------
  // filterAsyncRoutes, as a specification

  /**
   * The copy of a visible route: every field as in `route`, except that a
   * present `children` list is replaced by its filtered copy.
   */
  function Prune(route: Route, roles: seq<Role>): (r: Route)
    decreases route
    ensures r.(children := route.children) == route
    ensures r.children.Absent? <==> route.children.Absent?
    ensures r.children.Present? ==> |r.children.nodes| <= |route.children.nodes|
  {
    match route.children
    case Absent => route
    case Present(c) => route.(children := Present(Filter(c, roles)))
  }

  /**
   * The routes of `routes` a user holding `roles` may see, in their original
   * order, each pruned; a route that is not visible is dropped with its whole
   * subtree. Stated on a prefix and the last route, as the loop builds it.
   */
  function Filter(routes: seq<Route>, roles: seq<Role>): (r: seq<Route>)
    decreases routes
    ensures |r| <= |routes|
  {
    if routes == [] then []
    else
      var last := routes[|routes| - 1];
      Filter(routes[..|routes| - 1], roles)
        + (if HasPermission(roles, last) then [Prune(last, roles)] else [])
  }

  // ---------------------------------------------------------------------------
  // filterAsyncRoutes, as the source runs it

  /** The `forEach` loop that pushes a copy of every visible route into `res`. */
  method FilterAsyncRoutes(routes: seq<Route>, roles: seq<Role>) returns (res: seq<Route>)
    decreases routes
    ensures res == Filter(routes, roles)
  {
    res := [];
    var i := 0;
    while i < |routes|
      invariant 0 <= i <= |routes|
      invariant res == Filter(routes[..i], roles)
    {
      var tmp := routes[i];
      if HasPermission(roles, tmp) {
        if tmp.children.Present? {
          var filtered := FilterAsyncRoutes(tmp.children.nodes, roles);
          tmp := tmp.(children := Present(filtered));
        }
        res := res + [tmp];
      }
      assert routes[..i + 1][..i] == routes[..i];
      i := i + 1;
    }
    assert routes[..i] == routes;
  }

  // ---------------------------------------------------------------------------
  // Which routes are kept, and where they go

  /** The positions of the visible routes of `routes`, in increasing order. */
  function KeptIndices(routes: seq<Route>, roles: seq<Role>): (ks: seq<nat>)
    ensures forall k :: 0 <= k < |ks| ==> ks[k] < |routes| && HasPermission(roles, routes[ks[k]])
    ensures forall k, l :: 0 <= k < l < |ks| ==> ks[k] < ks[l]
    ensures forall i :: 0 <= i < |routes| && HasPermission(roles, routes[i]) ==> i in ks
  {
    if routes == [] then []
    else
      var n := |routes| - 1;
      var front := KeptIndices(routes[..n], roles);
      assert forall k :: 0 <= k < |front| ==> routes[..n][front[k]] == routes[front[k]];
      front + (if HasPermission(roles, routes[n]) then [n] else [])
  }

  /**
   * The result of filtering holds exactly one pruned copy of each visible
   * route, in the order of the input.
   */
  lemma {:induction false} FilterSelectsKept(routes: seq<Route>, roles: seq<Role>)
    ensures |Filter(routes, roles)| == |KeptIndices(routes, roles)|
    ensures forall k :: 0 <= k < |Filter(routes, roles)| ==>
      Filter(routes, roles)[k] == Prune(routes[KeptIndices(routes, roles)[k]], roles)
  {
    if routes != [] {
      var n := |routes| - 1;
      FilterSelectsKept(routes[..n], roles);
      var ks := KeptIndices(routes[..n], roles);
      assert forall k :: 0 <= k < |ks| ==> routes[..n][ks[k]] == routes[ks[k]];
    }
  }

  /** A route that is not visible contributes nothing: removing it changes nothing. */
  lemma {:induction false} HiddenRouteContributesNothing(routes: seq<Route>, roles: seq<Role>, i: nat)
    requires i < |routes|
    requires !HasPermission(roles, routes[i])
    ensures Filter(routes, roles) == Filter(routes[..i] + routes[i + 1..], roles)
  {
    var n := |routes| - 1;
    if i == n {
      assert routes[..i] + routes[i + 1..] == routes[..n];
    } else {
      var shorter := routes[..i] + routes[i + 1..];
      assert shorter[..|shorter| - 1] == routes[..n][..i] + routes[..n][i + 1..];
      assert shorter[|shorter| - 1] == routes[n];
      HiddenRouteContributesNothing(routes[..n], roles, i);
    }
  }

  /**
   * The children of a route that is not visible are never looked at: any
   * other children give the same result.
   */
  lemma HiddenSubtreeIrrelevant(routes: seq<Route>, roles: seq<Role>, i: nat, other: Children)
    requires i < |routes|
    requires !HasPermission(roles, routes[i])
    ensures Filter(routes[i := routes[i].(children := other)], roles) == Filter(routes, roles)
  {
    var changed := routes[i := routes[i].(children := other)];
    HiddenRouteContributesNothing(routes, roles, i);
    HiddenRouteContributesNothing(changed, roles, i);
    assert changed[..i] + changed[i + 1..] == routes[..i] + routes[i + 1..];
  }

  // ---------------------------------------------------------------------------
  // Idempotence

  /** Every route, at every depth, is visible to `roles`. */
  ghost predicate AllPermitted(routes: seq<Route>, roles: seq<Role>)
    decreases routes
  {
    forall i :: 0 <= i < |routes| ==>
      HasPermission(roles, routes[i]) &&
      (routes[i].children.Present? ==> AllPermitted(routes[i].children.nodes, roles))
  }

  /** Filtering leaves only routes visible to `roles`, at every depth. */
  lemma {:induction false} FilterAllPermitted(routes: seq<Route>, roles: seq<Role>)
    decreases routes
    ensures AllPermitted(Filter(routes, roles), roles)
  {
    if routes != [] {
      var n := |routes| - 1;
      var last := routes[n];
      FilterAllPermitted(routes[..n], roles);
      if HasPermission(roles, last) && last.children.Present? {
        FilterAllPermitted(last.children.nodes, roles);
      }
    }
  }

  /** Filtering a tree whose routes are all visible gives the tree back. */
  lemma {:induction false} FilterKeepsPermitted(routes: seq<Route>, roles: seq<Role>)
    decreases routes
    requires AllPermitted(routes, roles)
    ensures Filter(routes, roles) == routes
  {
    if routes != [] {
      var n := |routes| - 1;
      var last := routes[n];
      assert forall i :: 0 <= i < n ==> routes[..n][i] == routes[i];
      FilterKeepsPermitted(routes[..n], roles);
      if last.children.Present? {
        FilterKeepsPermitted(last.children.nodes, roles);
      }
      assert routes[..n] + [last] == routes;
    }
  }

  lemma FilterIdempotent(routes: seq<Route>, roles: seq<Role>)
    ensures Filter(Filter(routes, roles), roles) == Filter(routes, roles)
  {
    FilterAllPermitted(routes, roles);
    FilterKeepsPermitted(Filter(routes, roles), roles);
  }

  // ---------------------------------------------------------------------------
  // Sub-forests: order preservation and monotonicity

  /**
   * `a` is obtained from `b` by dropping routes at any depth: its routes are
   * copies of distinct routes of `b`, in the same order, each equal to its
   * original except for children, which are again a sub-forest.
   */
  ghost predicate SubForest(a: seq<Route>, b: seq<Route>)
    decreases b, a
  {
    if b == [] then a == []
    else
      SubForest(a, b[..|b| - 1]) ||
      (a != [] && SubRoute(a[|a| - 1], b[|b| - 1]) && SubForest(a[..|a| - 1], b[..|b| - 1]))
  }

  ghost predicate SubRoute(x: Route, y: Route)
    decreases y
  {
    x.(children := y.children) == y &&
    (x.children.Absent? <==> y.children.Absent?) &&
    (x.children.Present? && y.children.Present? ==> SubForest(x.children.nodes, y.children.nodes))
  }

  lemma {:induction false} SubForestReflexive(routes: seq<Route>)
    decreases routes
    ensures SubForest(routes, routes)
  {
    if routes != [] {
      var n := |routes| - 1;
      SubForestReflexive(routes[..n]);
      if routes[n].children.Present? {
        SubForestReflexive(routes[n].children.nodes);
      }
    }
  }

  /** The result of filtering is an order-preserving sub-forest of the input, at every depth. */
  lemma {:induction false} FilterIsSubForest(routes: seq<Route>, roles: seq<Role>)
    decreases routes
    ensures SubForest(Filter(routes, roles), routes)
  {
    if routes != [] {
      var n := |routes| - 1;
      var last := routes[n];
      var front := Filter(routes[..n], roles);
      FilterIsSubForest(routes[..n], roles);
      if HasPermission(roles, last) {
        if last.children.Present? {
          FilterIsSubForest(last.children.nodes, roles);
        }
        assert (front + [Prune(last, roles)])[..|front|] == front;
      } else {
        assert Filter(routes, roles) == front;
      }
    }
  }

  /** More roles never hide a route: what `r1` sees, `r2` sees too, in the same places. */
  lemma {:induction false} FilterMonotone(routes: seq<Route>, r1: seq<Role>, r2: seq<Role>)
    decreases routes
    requires RolesWithin(r1, r2)
    ensures SubForest(Filter(routes, r1), Filter(routes, r2))
  {
    if routes != [] {
      var n := |routes| - 1;
      var last := routes[n];
      var a := Filter(routes[..n], r1);
      var b := Filter(routes[..n], r2);
      FilterMonotone(routes[..n], r1, r2);
      if HasPermission(r1, last) {
        HasPermissionMonotone(r1, r2, last);
        if last.children.Present? {
          FilterMonotone(last.children.nodes, r1, r2);
        }
        assert (a + [Prune(last, r1)])[..|a|] == a;
        assert (b + [Prune(last, r2)])[..|b|] == b;
      } else if HasPermission(r2, last) {
        assert Filter(routes, r1) == a;
        assert Filter(routes, r2) == b + [Prune(last, r2)];
        var bigger := b + [Prune(last, r2)];
        assert bigger != [] && bigger[..|bigger| - 1] == b;
        assert SubForest(a, bigger);
      } else {
        assert Filter(routes, r1) == a && Filter(routes, r2) == b;
      }
    }
  }

  // ---------------------------------------------------------------------------
  // generateRoutes, as a specification

  /** The routes `generateRoutes` grants: all of them to an admin, the filtered ones otherwise. */
  function Accessible(asyncRoutes: seq<Route>, roles: seq<Role>): (r: seq<Route>)
    ensures |r| <= |asyncRoutes|
  {
    if Admin in roles then asyncRoutes else Filter(asyncRoutes, roles)
  }

  /** Whatever the roles, the granted routes are an order-preserving sub-forest of all of them. */
  lemma AccessibleIsSubForest(asyncRoutes: seq<Route>, roles: seq<Role>)
    ensures SubForest(Accessible(asyncRoutes, roles), asyncRoutes)
  {
    if Admin in roles {
      SubForestReflexive(asyncRoutes);
    } else {
      FilterIsSubForest(asyncRoutes, roles);
    }
  }

  /** More roles never grant fewer routes, the admin bypass included. */
  lemma AccessibleMonotone(asyncRoutes: seq<Route>, r1: seq<Role>, r2: seq<Role>)
    requires RolesWithin(r1, r2)
    ensures SubForest(Accessible(asyncRoutes, r1), Accessible(asyncRoutes, r2))
  {
    if Admin in r1 {
      SubForestReflexive(asyncRoutes);
    } else if Admin in r2 {
      FilterIsSubForest(asyncRoutes, r1);
    } else {
      FilterMonotone(asyncRoutes, r1, r2);
    }
  }

  /**
   * The admin bypass is not filtering with the admin role: a route reserved
   * to editors is granted to an admin, yet filtering for the admin drops it.
   */
  lemma AdminBypassIsNotFiltering()
    ensures var editorsOnly := [Route("/edit", "", Some(["editor"]), Absent)];
      Accessible(editorsOnly, [Admin]) == editorsOnly &&
      Filter(editorsOnly, [Admin]) == []
  {
  }

  // ---------------------------------------------------------------------------
  // The store: state, SET_ROUTES and generateRoutes

  class PermissionStore {
    /** The always-visible routes and the role-gated routes, fixed at construction. */
    const constantRoutes: seq<Route>
    const asyncRoutes: seq<Route>

    /** `state.routes` and `state.addRoutes`. */
    var routes: seq<Route>
    var addRoutes: seq<Route>

    /** Every list committed through `SET_ROUTES`, oldest first. */
    ghost var commits: seq<seq<Route>>

    /**
     * Before the first commit both lists are empty; after it `addRoutes` is
     * the last committed list and `routes` the constant routes followed by it.
     */
    ghost predicate Valid()
      reads this
    {
      if commits == [] then routes == [] && addRoutes == []
      else addRoutes == commits[|commits| - 1] && routes == constantRoutes + addRoutes
    }

    constructor (constantRoutes: seq<Route>, asyncRoutes: seq<Route>)
      ensures Valid()
      ensures this.constantRoutes == constantRoutes && this.asyncRoutes == asyncRoutes
      ensures routes == [] && addRoutes == [] && commits == []
    {
      this.constantRoutes := constantRoutes;
      this.asyncRoutes := asyncRoutes;
      routes := [];
      addRoutes := [];
      commits := [];
    }

    /** The `SET_ROUTES` mutation. */
    method SetRoutes(r: seq<Route>)
      modifies this
      ensures Valid()
      ensures addRoutes == r && routes == constantRoutes + r
      ensures commits == old(commits) + [r]
    {
      addRoutes := r;
      routes := constantRoutes + r;
      commits := commits + [r];
    }

    /** The `generateRoutes` action: compute the granted routes, commit them once, return them. */
    method GenerateRoutes(roles: seq<Role>) returns (accessedRoutes: seq<Route>)
      modifies this
      ensures Valid()
      ensures accessedRoutes == Accessible(asyncRoutes, roles)
      ensures commits == old(commits) + [accessedRoutes]
      ensures addRoutes == accessedRoutes && routes == constantRoutes + accessedRoutes
    {
      if Admin in roles {
        accessedRoutes := asyncRoutes;
      } else {
        accessedRoutes := FilterAsyncRoutes(asyncRoutes, roles);
      }
      SetRoutes(accessedRoutes);
    }
  }

  /** A home page for everyone and a settings page for admins only. */
  method StoreScenario()
  {
    var home := Route("/home", "", None, Absent);
    var settings := Route("/settings", "", Some([Admin]), Absent);
    var store := new PermissionStore([home], [settings]);
    assert store.routes == [] && store.addRoutes == [];

    var granted := store.GenerateRoutes(["user"]);
    assert !HasPermission(["user"], settings);
    assert [settings][..0] == [];
    assert granted == [] && store.routes == [home];

    granted := store.GenerateRoutes([Admin]);
    assert granted == [settings] && store.routes == [home, settings];
    assert |store.commits| == 2;
  }
}
