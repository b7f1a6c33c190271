/** The client's auth slice: one field, the current user, changed by the
    `setUser` and `logout` reducers and by the fulfilled `login` and
    `register` thunks. */
module AuthSlice {
  import opened Common
  import SecureStorage
  import Api
  import ApiConfig

  /** A plain object carried as `action.payload` by an errored action from
      elsewhere in the app. */
  datatype ErrorPayload = ErrorPayload(message: string, status: Option<int>)

  /** The actions the store sees. A rejected `login` or `register` carries
      the serialized error (only its message) and no payload, because the
      thunks rethrow instead of using a rejected value. `Other` is any other
      action, with the truthiness of its `error` field and its payload. */
  datatype Action =
    | SetUser(profile: Option<User>)
    | Logout
    | LoginFulfilled(user: User)
    | LoginRejected(message: string)
    | RegisterFulfilled(user: User)
    | RegisterRejected(message: string)
    | Other(error: bool, payload: Option<ErrorPayload>)

  /** Truthiness of `action.error`. */
  predicate HasError(a: Action)
  {
    a.LoginRejected? || a.RegisterRejected? || (a.Other? && a.error)
  }

  /** `action.payload?.status`; a user object has no `status`. */
  function PayloadStatus(a: Action): Option<int>
  {
    if a.Other? && a.payload.Some? then a.payload.value.status else None
  }

  /** The slice's reducer on the `user` field. Only the four handled
      actions can change the user; a fulfilled thunk always leaves one. */
  function Reduce(user: Option<User>, a: Action): (r: Option<User>)
    ensures r != user ==> a.SetUser? || a.Logout? || a.LoginFulfilled? || a.RegisterFulfilled?
    ensures a.LoginFulfilled? || a.RegisterFulfilled? ==> r == Some(a.user)
  {
    match a
    case SetUser(p) => p
    case Logout => None
    case LoginFulfilled(u) => Some(u)
    case RegisterFulfilled(u) => Some(u)
    case _ => user
  }

  /** Logging out twice is logging out once, and leaves no user. */
  lemma LogoutIdempotent(user: Option<User>)
    ensures Reduce(Reduce(user, Logout), Logout) == Reduce(user, Logout) == None
  {
  }

  /** Only the four handled actions touch the user; every other action,
      rejections included, leaves it as it was. */
  lemma UnhandledActionsKeepUser(user: Option<User>, a: Action)
    requires !a.SetUser? && !a.Logout? && !a.LoginFulfilled? && !a.RegisterFulfilled?
    ensures Reduce(user, a) == user
  {
  }

  class State {
    var user: Option<User>

    /** `initialState`: nobody is logged in. */
    constructor ()
      ensures user == None
    {
      user := None;
    }

    /** `setUser`: the user becomes the payload. */
    method SetUser(payload: Option<User>)
      modifies this
      ensures user == payload
    {
      user := payload;
    }

    /** `logout`: no user. */
    method Logout()
      modifies this
      ensures user == None
    {
      user := None;
    }

    /** `login.fulfilled` and `register.fulfilled`: the user becomes the
        thunk's result. */
    method Fulfilled(payload: User)
      modifies this
      ensures user == Some(payload)
    {
      user := Some(payload);
    }

    /** The slice reducer run on one action, in place. */
    method Apply(a: Action)
      modifies this
      ensures user == Reduce(old(user), a)
    {
      match a {
        case SetUser(p) => SetUser(p);
        case Logout => Logout();
        case LoginFulfilled(u) => Fulfilled(u);
        case RegisterFulfilled(u) => Fulfilled(u);
        case _ =>
      }
    }

    /** `selectCurrentUser`. */
    function SelectCurrentUser(): (u: Option<User>)
      reads this
      ensures u == user
    {
      user
    }
  }

  /** What `/auth/login` and `/auth/register` answer with. */
  datatype AuthData = AuthData(user: User, token: string)

  /** The `login` thunk. It sends the request through the API wrapper,
      whose response interceptor empties the token slot when the server
      answers 401. On success it saves the token and then resolves with the
      user alone. On failure it saves nothing and rejects with the
      normalised error's message. `asAuth` reads the `{ user, token }`
      fields of the response body. */
  method LoginThunk(slot: SecureStorage.TokenSlot,
                    transport: (string, ApiConfig.Headers) -> Result<ApiConfig.HttpResponse, ApiConfig.HttpError>,
                    asAuth: ApiConfig.ResponseData -> AuthData)
    returns (a: Action)
    modifies slot
    ensures var r := Api.Settle(transport(Api.LoginPath, ApiConfig.OutgoingHeaders(old(slot.token))));
      && (r.Ok? ==> slot.token == Some(asAuth(r.value).token) && a == LoginFulfilled(asAuth(r.value).user))
      && (r.Err? ==> a == LoginRejected(r.error.message)
                     && slot.token == if r.error.status == Some(401) then None else old(slot.token))
  {
    var r := Api.Login(slot, transport);
    if r.Err? {
      return LoginRejected(r.error.message);
    }
    var data := asAuth(r.value);
    slot.Save(data.token);
    a := LoginFulfilled(data.user);
  }

  /** The `register` thunk, with the same steps as `login` on
      `/auth/register`. */
  method RegisterThunk(slot: SecureStorage.TokenSlot,
                       transport: (string, ApiConfig.Headers) -> Result<ApiConfig.HttpResponse, ApiConfig.HttpError>,
                       asAuth: ApiConfig.ResponseData -> AuthData)
    returns (a: Action)
    modifies slot
    ensures var r := Api.Settle(transport(Api.RegisterPath, ApiConfig.OutgoingHeaders(old(slot.token))));
      && (r.Ok? ==> slot.token == Some(asAuth(r.value).token) && a == RegisterFulfilled(asAuth(r.value).user))
      && (r.Err? ==> a == RegisterRejected(r.error.message)
                     && slot.token == if r.error.status == Some(401) then None else old(slot.token))
  {
    var r := Api.Register(slot, transport);
    if r.Err? {
      return RegisterRejected(r.error.message);
    }
    var data := asAuth(r.value);
    slot.Save(data.token);
    a := RegisterFulfilled(data.user);
  }
}
