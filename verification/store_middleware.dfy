/** The client store with its auth middleware: every dispatched action
    passes the middleware, which dispatches `logout` first when the action
    is an error carrying status 401, and then hands the action to `next`
    (the reducer). */
module StoreMiddleware {
  import opened Common
  import opened AuthSlice

  /** `action.error && action.payload?.status === 401`. */
  predicate TriggersLogout(a: Action)
    ensures TriggersLogout(a) ==> a.Other?
  {
    HasError(a) && PayloadStatus(a) == Some(401)
  }

  /** Only an errored action from outside the auth slice can carry a 401:
      the slice's own actions, rejected logins and registrations included,
      never trigger a logout. */
  lemma OnlyForeignErrorsTriggerLogout(a: Action)
    ensures TriggersLogout(a) <==> a.Other? && a.error && a.payload.Some? && a.payload.value.status == Some(401)
    ensures TriggersLogout(a) ==> Reduce(None, a) == None
  {
  }

  class Store {
    /** The auth slice's state. */
    const auth: State
    /** Every action handed to `next`, in order. */
    var forwarded: seq<Action>

    constructor ()
      ensures fresh(auth) && auth.user == None && forwarded == []
    {
      auth := new State();
      forwarded := [];
    }

    /** `store.dispatch(action)` through the auth middleware. The result is
        what `next(action)` returns, which is the action itself. */
    method Dispatch(a: Action) returns (r: Action)
      modifies this, auth
      ensures r == a
      ensures forwarded == old(forwarded) + (if TriggersLogout(a) then [Logout] else []) + [a]
      ensures auth.user == Reduce(if TriggersLogout(a) then None else old(auth.user), a)
      decreases if TriggersLogout(a) then 1 else 0
    {
      if HasError(a) && PayloadStatus(a) == Some(401) {
        var _ := Dispatch(Logout);
      }
      r := Next(a);
    }

    /** `next(action)`: the reducer applies the action. */
    method Next(a: Action) returns (r: Action)
      modifies this, auth
      ensures r == a
      ensures forwarded == old(forwarded) + [a]
      ensures auth.user == Reduce(old(auth.user), a)
    {
      forwarded := forwarded + [a];
      auth.Apply(a);
      r := a;
    }
  }
}
