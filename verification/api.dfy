/** The client's API wrappers: the paths they request, what they resolve
    with, and the `{ message, status }` object every one of them throws. */
module Api {
  import opened Common
  import SecureStorage
  import ApiConfig

  /** The error object the wrappers throw. */
  datatype ApiError = ApiError(message: string, status: Option<int>)

  /** The `catch` of every wrapper: the server's `message` when it is a
      non-empty string, else the error's own message; the response status,
      absent when no response arrived. */
  function NormaliseError(e: ApiConfig.HttpError): (n: ApiError)
    ensures n.status.Some? <==> e.response.Some?
    ensures e.response.Some? ==> n.status.value == e.response.value.status
    ensures e.response.Some? && TruthyString(e.response.value.data.message) ==>
      n.message == e.response.value.data.message.value
    ensures !(e.response.Some? && TruthyString(e.response.value.data.message)) ==> n.message == e.message
  {
    var status := if e.response.Some? then Some(e.response.value.status) else None;
    var serverMessage := if e.response.Some? then e.response.value.data.message else None;
    ApiError(if TruthyString(serverMessage) then serverMessage.value else e.message, status)
  }

  /** The thrown error reports 401 exactly when the response interceptor
      emptied the token slot for it. */
  lemma NormalisedStatusMatchesInterceptor(e: ApiConfig.HttpError)
    ensures NormaliseError(e).status == Some(401) <==> ApiConfig.Is401(e)
  {
  }

  /** What a wrapper resolves or rejects with: `response.data` unchanged on
      success, the normalised error otherwise. */
  function Settle(r: Result<ApiConfig.HttpResponse, ApiConfig.HttpError>): (s: Result<ApiConfig.ResponseData, ApiError>)
    ensures s.Ok? <==> r.Ok?
    ensures r.Ok? ==> s.value == r.value.data
    ensures r.Err? ==> s.error == NormaliseError(r.error)
  {
    match r
    case Ok(response) => Ok(response.data)
    case Err(e) => Err(NormaliseError(e))
  }

  // ---------------------------------------------------------------------
  // Paths
  // ---------------------------------------------------------------------

  const RegisterPath := "/auth/register"
  const LoginPath := "/auth/login"
  const UserBooksPath := "/books/user"
  const BooksPath := "/books"

  /** `getBooks`: `/books?page=<page>&limit=<limit>`, page 1 and limit 5
      when not given. */
  function GetBooksUrl(page: nat := 1, limit: nat := 5): (u: string)
    ensures Split(u, '?') == [BooksPath, "page=" + Decimal(page) + "&limit=" + Decimal(limit)]
  {
    var p, l := Decimal(page), Decimal(limit);
    NoSymbolInDigits(p);
    NoSymbolInDigits(l);
    SplitPair(BooksPath, "page=" + p + "&limit=" + l, '?');
    assert BooksPath + "?" + ("page=" + p + "&limit=" + l) == "/books?page=" + p + "&limit=" + l;
    "/books?page=" + p + "&limit=" + l
  }

  /** The query string of a `getBooks` path (the part after `?`, see
      `GetBooksUrl`) has exactly the fields `page` and `limit`, and their
      values read back as the numbers sent. */
  lemma GetBooksUrlCarriesPageAndLimit(page: nat, limit: nat)
    ensures Split("page=" + Decimal(page) + "&limit=" + Decimal(limit), '&') == ["page=" + Decimal(page), "limit=" + Decimal(limit)]
    ensures Split("page=" + Decimal(page), '=') == ["page", Decimal(page)]
    ensures Split("limit=" + Decimal(limit), '=') == ["limit", Decimal(limit)]
    ensures ParseDecimal(Decimal(page)) == page && ParseDecimal(Decimal(limit)) == limit
  {
    var p, l := Decimal(page), Decimal(limit);
    NoSymbolInDigits(p);
    NoSymbolInDigits(l);
    SplitPair("page=" + p, "limit=" + l, '&');
    assert ("page=" + p) + "&" + ("limit=" + l) == "page=" + p + "&limit=" + l;
    SplitPair("page", p, '=');
    assert "page" + "=" + p == "page=" + p;
    SplitPair("limit", l, '=');
    assert "limit" + "=" + l == "limit=" + l;
    ParseDecimalOfDecimal(page);
    ParseDecimalOfDecimal(limit);
  }

  /** Two separator-free fields joined by the separator split back apart. */
  lemma SplitPair(a: string, b: string, sep: char)
    requires sep !in a && sep !in b
    ensures Split(a + [sep] + b, sep) == [a, b]
  {
    assert Join([a, b], sep) == a + [sep] + b;
    SplitJoin([a, b], sep);
  }

  lemma NoSymbolInDigits(s: string)
    requires forall i :: 0 <= i < |s| ==> IsDigit(s[i])
    ensures '?' !in s && '&' !in s && '=' !in s && '/' !in s
  {
  }

  /** `deleteBook`: `/books/<bookId>`. For an id without `/`, the path has
      exactly the segments of the server's `/books/:id` route, with `:id`
      the id sent. */
  function DeleteBookUrl(bookId: string): (u: string)
    ensures '/' !in bookId ==> Split(u, '/') == ["", "books", bookId]
  {
    var u := "/books/" + bookId;
    if '/' in bookId then u
    else
      var fields := ["", "books", bookId];
      assert fields[1..] == ["books", bookId];
      assert Join(["books", bookId], '/') == "books/" + bookId;
      assert Join(fields, '/') == "" + "/" + ("books/" + bookId) == u;
      SplitJoin(fields, '/');
      u
  }

  // ---------------------------------------------------------------------
  // The wrappers
  // ---------------------------------------------------------------------

  /** The common shape of every wrapper: one request through the HTTP
      instance, then `response.data` or the normalised error. */
  method Call(path: string, slot: SecureStorage.TokenSlot,
              transport: (string, ApiConfig.Headers) -> Result<ApiConfig.HttpResponse, ApiConfig.HttpError>)
    returns (r: Result<ApiConfig.ResponseData, ApiError>)
    modifies slot
    ensures r == Settle(transport(path, ApiConfig.OutgoingHeaders(old(slot.token))))
    ensures r.Err? && r.error.status == Some(401) ==> slot.token == None
    ensures !(r.Err? && r.error.status == Some(401)) ==> slot.token == old(slot.token)
  {
    var response := ApiConfig.Send(path, slot, transport);
    if response.Err? {
      NormalisedStatusMatchesInterceptor(response.error);
    }
    r := Settle(response);
  }

  /** `authAPI.register`: `/auth/register`, settled as every wrapper. */
  method Register(slot: SecureStorage.TokenSlot,
                  transport: (string, ApiConfig.Headers) -> Result<ApiConfig.HttpResponse, ApiConfig.HttpError>)
    returns (r: Result<ApiConfig.ResponseData, ApiError>)
    modifies slot
    ensures r == Settle(transport(RegisterPath, ApiConfig.OutgoingHeaders(old(slot.token))))
    ensures r.Err? && r.error.status == Some(401) ==> slot.token == None
    ensures !(r.Err? && r.error.status == Some(401)) ==> slot.token == old(slot.token)
  {
    r := Call(RegisterPath, slot, transport);
  }

  /** `authAPI.login`: `/auth/login`, settled as every wrapper. */
  method Login(slot: SecureStorage.TokenSlot,
               transport: (string, ApiConfig.Headers) -> Result<ApiConfig.HttpResponse, ApiConfig.HttpError>)
    returns (r: Result<ApiConfig.ResponseData, ApiError>)
    modifies slot
    ensures r == Settle(transport(LoginPath, ApiConfig.OutgoingHeaders(old(slot.token))))
    ensures r.Err? && r.error.status == Some(401) ==> slot.token == None
    ensures !(r.Err? && r.error.status == Some(401)) ==> slot.token == old(slot.token)
  {
    r := Call(LoginPath, slot, transport);
  }

  method GetBooks(slot: SecureStorage.TokenSlot,
                  transport: (string, ApiConfig.Headers) -> Result<ApiConfig.HttpResponse, ApiConfig.HttpError>,
                  page: nat := 1, limit: nat := 5)
    returns (r: Result<ApiConfig.ResponseData, ApiError>)
    modifies slot
    ensures r == Settle(transport(GetBooksUrl(page, limit), ApiConfig.OutgoingHeaders(old(slot.token))))
    ensures r.Err? && r.error.status == Some(401) ==> slot.token == None
    ensures !(r.Err? && r.error.status == Some(401)) ==> slot.token == old(slot.token)
  {
    r := Call(GetBooksUrl(page, limit), slot, transport);
  }

  method DeleteBook(bookId: string, slot: SecureStorage.TokenSlot,
                    transport: (string, ApiConfig.Headers) -> Result<ApiConfig.HttpResponse, ApiConfig.HttpError>)
    returns (r: Result<ApiConfig.ResponseData, ApiError>)
    modifies slot
    ensures r == Settle(transport(DeleteBookUrl(bookId), ApiConfig.OutgoingHeaders(old(slot.token))))
    ensures r.Err? && r.error.status == Some(401) ==> slot.token == None
    ensures !(r.Err? && r.error.status == Some(401)) ==> slot.token == old(slot.token)
  {
    r := Call(DeleteBookUrl(bookId), slot, transport);
  }
}
