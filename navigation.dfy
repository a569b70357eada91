/** The navigation menu's derived flags and its site-link decision, as pure
    functions over a snapshot of the router, the session and the config. */
module Navigation {
  import opened Wrappers

  /** The role flags of the signed-in user, as the user model reports them.
      How they follow from the user's role is not part of this model. */
  datatype User = User(isAdmin: bool, isEditor: bool, isContributor: bool, isOwnerOnly: bool)

  /** What the menu reads: the current route name (absent before the first
      transition), the signed-in user (absent when there is none), whether
      the config declares a menu client extension, and whether billing is
      enabled in the host settings. */
  datatype Snapshot = Snapshot(
    currentRouteName: Option<string>,
    user: Option<User>,
    menuExtension: bool,
    billingEnabled: bool)

  const SiteRoute: string := "site"
  const PostsRoute: string := "posts"
  const IntegrationRoutePrefix: string := "settings.integration"

  /** `isIntegrationRoute`: the route name matches `/^settings\.integration/`. */
  predicate IsIntegrationRoute(s: Snapshot) {
    s.currentRouteName.Some? && IntegrationRoutePrefix <= s.currentRouteName.value
  }

  /** `isOnSite`: the route name is exactly `site`. */
  predicate IsOnSite(s: Snapshot) {
    s.currentRouteName == Some(SiteRoute)
  }

  /** `showTagsNavigation`: the user is an administrator or an editor; false
      when nobody is signed in. */
  predicate ShowTagsNavigation(s: Snapshot) {
    s.user.Some? && (s.user.value.isAdmin || s.user.value.isEditor)
  }

  /** `showMenuExtension`: the config declares a menu extension and the user
      is the owner. */
  predicate ShowMenuExtension(s: Snapshot) {
    s.menuExtension && s.user.Some? && s.user.value.isOwnerOnly
  }

  /** `showBilling`: billing is enabled in the host settings. */
  predicate ShowBilling(s: Snapshot) {
    s.billingEnabled
  }

  /** What a click on the site link does: refresh the named route, move to
      the named route, or fail because no user is signed in (reading the
      role of an absent user throws). */
  datatype NavAction = Refresh(route: string) | TransitionTo(route: string) | NoUser

  /** `transitionToOrRefreshSite`. */
  function TransitionToOrRefreshSite(s: Snapshot): (a: NavAction)
    ensures a.Refresh? <==> IsOnSite(s)
    ensures a.Refresh? ==> a.route == SiteRoute
    ensures a == TransitionTo(PostsRoute) <==>
              !IsOnSite(s) && s.user.Some? && s.user.value.isContributor
    ensures a == TransitionTo(SiteRoute) <==>
              !IsOnSite(s) && s.user.Some? && !s.user.value.isContributor
    ensures a.NoUser? <==> !IsOnSite(s) && s.user.None?
  {
    if s.currentRouteName == Some(SiteRoute) then Refresh(s.currentRouteName.value)
    else if s.user.None? then NoUser
    else if s.user.value.isContributor then TransitionTo(PostsRoute)
    else TransitionTo(SiteRoute)
  }

  /** The site route is never an integration route, so the two flags are
      never set together. */
  lemma OnSiteIsNotIntegration(s: Snapshot)
    ensures IsOnSite(s) ==> !IsIntegrationRoute(s)
  {
    if IsOnSite(s) {
      assert |SiteRoute| < |IntegrationRoutePrefix|;
    }
  }

  /** Nothing that depends on the user is shown when nobody is signed in. */
  lemma NoUserHidesUserFlags(s: Snapshot)
    requires s.user.None?
    ensures !ShowTagsNavigation(s) && !ShowMenuExtension(s)
  {
  }
}
