/** The navigation gate of the root layout: from the current user and the
    first route segment, where (if anywhere) to send the user. */
module RootNavigation {
  import opened Common
  import AuthSlice
  import StoreMiddleware

  const AuthGroup := "(auth)"
  const TabsGroup := "(tabs)"
  const ToTabs := "/(tabs)"
  const ToAuth := "/(auth)"

  /** `segments[0] === "(auth)"`; with no segment at all the location is
      not in the auth group. */
  predicate InAuthGroup(segments: seq<string>)
    ensures segments == [] ==> !InAuthGroup(segments)
    ensures InAuthGroup(segments) ==> segments[0] == AuthGroup
  {
    |segments| > 0 && segments[0] == AuthGroup
  }

  /** The target of `router.replace`, or `None` when the effect does not
      navigate. */
  function Redirect(user: Option<User>, segments: seq<string>): (target: Option<string>)
    ensures target.Some? <==> user.Some? == InAuthGroup(segments)
    ensures target.Some? && user.Some? ==> target.value == ToTabs
    ensures target.Some? && user.None? ==> target.value == ToAuth
  {
    if user.Some? && InAuthGroup(segments) then Some(ToTabs)
    else if user.None? && !InAuthGroup(segments) then Some(ToAuth)
    else None
  }

  /** The first route segment a target path opens. */
  function GroupOf(target: string): string
  {
    if |target| > 0 && target[0] == '/' then target[1..] else target
  }

  /** Once the router is on the target's group, the effect runs again
      without navigating: the gate never loops. */
  lemma RedirectIsStable(user: Option<User>, segments: seq<string>, rest: seq<string>)
    requires Redirect(user, segments).Some?
    ensures Redirect(user, [GroupOf(Redirect(user, segments).value)] + rest) == None
  {
    var target := Redirect(user, segments).value;
    if user.Some? {
      assert GroupOf(target) == TabsGroup;
    } else {
      assert GroupOf(target) == AuthGroup;
    }
  }

  /** A 401 reported through the store ends on the auth screens: the user
      is gone, so a location outside the auth group is sent to it. */
  lemma UnauthorizedLeadsToAuthScreens(user: Option<User>, a: AuthSlice.Action, segments: seq<string>)
    requires StoreMiddleware.TriggersLogout(a)
    ensures Redirect(AuthSlice.Reduce(AuthSlice.Reduce(user, AuthSlice.Logout), a), segments)
      == if InAuthGroup(segments) then None else Some(ToAuth)
  {
    StoreMiddleware.OnlyForeignErrorsTriggerLogout(a);
  }
}
