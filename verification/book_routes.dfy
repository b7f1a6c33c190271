/** The `/books` routes of the server: create, page listing, the
    requester's own listing, and owner-gated delete. The document store is
    the class `BookStore`; the image host and the store's own id generation
    enter as parameters of the operations (see README). */
module BookRoutes {
  import opened Common

  /** A stored book. `image` is the hosted image URL, `user` the owner's id
      and `createdAt` the store's timestamp. */
  datatype Book = Book(title: string, caption: string, image: string, rating: int, user: string, createdAt: int)

  /** The fields of a `POST /books` body; an absent field is `None`. */
  datatype CreateBody = CreateBody(title: Option<string>, caption: Option<string>, image: Option<string>, rating: Option<int>)

  /** What the image host answers to an upload. */
  datatype Upload = Uploaded(secureUrl: string) | UploadFailed(message: string)

  datatype Body =
    | Message(text: string)
    | Created(id: string, book: Book)
    | BookList(books: seq<Book>)
    | Page(books: seq<Book>, currentPage: int, totalPages: nat, totalBooks: nat)

  datatype Response = Response(status: int, body: Body)

  const AllFieldsRequired := "All fields are required"
  const BookNotFound := "Book not found"
  const NotOwner := "Unauthorized"
  const BookDeleted := "Book deleted successfully"
  /** Stands for the store's error message when a generated id is already
      taken; the store's full text also names the collection and the key. */
  const DuplicateKey := "E11000 duplicate key error"
  /** Stands for the store's error message when asked to skip a negative
      number of records; the store's full text also gives the value. */
  const NegativeSkip := "skip value must be non-negative"

  /** Page and page size used when the query string omits them. */
  const DefaultPage := 1
  const DefaultLimit := 5

  // ---------------------------------------------------------------------
  // Create: the required-field check
  // ---------------------------------------------------------------------

  /** `!title || !caption || !image || !rating` is false: every field is
      present and truthy, so an empty string or a rating of 0 is missing. */
  predicate HasRequiredFields(body: CreateBody)
  {
    TruthyString(body.title) && TruthyString(body.caption) && TruthyString(body.image)
    && body.rating.Some? && body.rating.value != 0
  }

  // ---------------------------------------------------------------------
  // Page listing arithmetic
  // ---------------------------------------------------------------------

  /** The number of records skipped for a 1-based page: negative exactly
      for pages before the first. */
  function Skip(page: int, limit: nat): (n: int)
    ensures page >= 1 ==> n >= 0
    ensures limit > 0 ==> (n < 0 <==> page < 1)
  {
    (page - 1) * limit
  }

  /** `Math.ceil(total / limit)`: the least number of pages of `limit`
      records that hold `total` records. */
  function TotalPages(total: nat, limit: nat): (n: nat)
    requires limit > 0
    ensures n * limit >= total
    ensures n == 0 || (n - 1) * limit < total
  {
    var q := (total + limit - 1) / limit;
    assert q * limit <= total + limit - 1 < (q + 1) * limit;
    q
  }

  /** The records a page shows: after skipping `skip` records, at most
      `limit` of them, in store order. */
  function PageOf<T>(s: seq<T>, skip: nat, limit: nat): (r: seq<T>)
    ensures |r| <= limit
    ensures |r| == if skip >= |s| then 0 else if |s| - skip < limit then |s| - skip else limit
    ensures forall i :: 0 <= i < |r| ==> r[i] == s[skip + i]
  {
    if skip >= |s| then [] else s[skip..if skip + limit <= |s| then skip + limit else |s|]
  }

  /** Every record appears on exactly the page its position says, and that
      page is within `TotalPages`: paging through pages 1..TotalPages misses
      nothing. */
  lemma EveryRecordOnItsPage<T>(s: seq<T>, limit: nat, i: nat)
    requires limit > 0 && i < |s|
    ensures var p := i / limit + 1;
      1 <= p <= TotalPages(|s|, limit)
      && i % limit < |PageOf(s, Skip(p, limit), limit)|
      && PageOf(s, Skip(p, limit), limit)[i % limit] == s[i]
  {
    var p := i / limit + 1;
    var n := TotalPages(|s|, limit);
    assert Skip(p, limit) + i % limit == i;
    if n <= i / limit {
      MulMonotone(n, i / limit, limit);
      assert false;
    }
  }

  lemma MulMonotone(a: nat, b: nat, c: nat)
    requires a <= b
    ensures a * c <= b * c
  {
  }

  /** Pages past `TotalPages` are empty; every page up to it is not. */
  lemma PageEmptyIffPastEnd<T>(s: seq<T>, limit: nat, page: int)
    requires limit > 0 && page >= 1
    ensures PageOf(s, Skip(page, limit), limit) == [] <==> page > TotalPages(|s|, limit)
  {
    var n := TotalPages(|s|, limit);
    if page > n {
      MulMonotone(n, page - 1, limit);
    } else {
      MulMonotone(page - 1, n - 1, limit);
    }
  }

  // ---------------------------------------------------------------------
  // Owner listing: filter, then newest first
  // ---------------------------------------------------------------------

  /** The records owned by `owner`, in store order (`find({ user })`). */
  function OwnedBy(s: seq<Book>, owner: string): (r: seq<Book>)
    ensures forall b :: b in r ==> b.user == owner
    ensures forall b :: multiset(r)[b] == if b.user == owner then multiset(s)[b] else 0
  {
    if s == [] then []
    else
      assert s == [s[0]] + s[1..];
      (if s[0].user == owner then [s[0]] else []) + OwnedBy(s[1..], owner)
  }

  predicate NewestFirst(s: seq<Book>)
  {
    forall i, j :: 0 <= i < j < |s| ==> s[i].createdAt >= s[j].createdAt
  }

  /** Places `b` into a newest-first sequence. */
  function InsertNewest(b: Book, s: seq<Book>): (r: seq<Book>)
    requires NewestFirst(s)
    ensures NewestFirst(r)
    ensures multiset(r) == multiset(s) + multiset{b}
  {
    if s == [] || b.createdAt >= s[0].createdAt then [b] + s
    else
      var t := InsertNewest(b, s[1..]);
      assert s == [s[0]] + s[1..];
      NoNewerThan(t, s[1..], b, s[0].createdAt);
      [s[0]] + t
  }

  /** A rearrangement of records no newer than `c`, plus one more such
      record, holds only records no newer than `c`. */
  lemma NoNewerThan(t: seq<Book>, s: seq<Book>, b: Book, c: int)
    requires multiset(t) == multiset(s) + multiset{b}
    requires b.createdAt <= c
    requires forall k :: 0 <= k < |s| ==> s[k].createdAt <= c
    ensures forall k :: 0 <= k < |t| ==> t[k].createdAt <= c
  {
    forall k | 0 <= k < |t|
      ensures t[k].createdAt <= c
    {
      assert t[k] in multiset(t);
      if t[k] != b {
        assert t[k] in multiset(s);
        var j :| 0 <= j < |s| && s[j] == t[k];
      }
    }
  }

  /** `.sort({ createdAt: -1 })`: the same records, newest first. Records
      with equal timestamps may come in any order the sort picks; this
      model keeps them in store order. */
  function SortNewestFirst(s: seq<Book>): (r: seq<Book>)
    ensures NewestFirst(r)
    ensures multiset(r) == multiset(s)
  {
    if s == [] then []
    else
      assert s == [s[0]] + s[1..];
      InsertNewest(s[0], SortNewestFirst(s[1..]))
  }

  // ---------------------------------------------------------------------
  // Delete: the image's public id
  // ---------------------------------------------------------------------

  /** `url.split('/')` last part, then `.split('.')[0]`: the file name of
      the hosted image without its extension. */
  function PublicId(url: string): (id: string)
    ensures '/' !in id && '.' !in id
  {
    var parts := Split(url, '/');
    var file := parts[|parts| - 1];
    FirstField(file, '.');
    Split(file, '.')[0]
  }

  /** The public id is the text after the last `/`, up to the first `.`
      after it. */
  lemma PublicIdIsFileStem(url: string)
    ensures var parts := Split(url, '/'); var file := parts[|parts| - 1];
      var id := PublicId(url);
      && |file| <= |url| && file == url[|url| - |file|..] && '/' !in file
      && (|file| < |url| ==> url[|url| - |file| - 1] == '/')
      && |id| <= |file| && id == file[..|id|]
      && (|id| < |file| ==> file[|id|] == '.')
  {
    var parts := Split(url, '/');
    LastField(url, '/');
    FirstField(parts[|parts| - 1], '.');
  }

  /** For a URL of the shape the image host issues,
      `<segments>/<name>.<ext>` (as in `.../upload/v1234567890/public_id.jpg`),
      the public id is `<name>`. */
  lemma PublicIdOfHostedUrl(segments: seq<string>, name: string, ext: string)
    requires forall i :: 0 <= i < |segments| ==> '/' !in segments[i]
    requires '/' !in name && '.' !in name && '/' !in ext
    ensures PublicId(Join(segments + [name + "." + ext], '/')) == name
  {
    var file := name + "." + ext;
    var fields := segments + [file];
    assert '/' !in file;
    assert forall i :: 0 <= i < |fields| ==> '/' !in fields[i];
    SplitJoin(fields, '/');
    var parts := Split(Join(fields, '/'), '/');
    assert parts[|parts| - 1] == file;
    FileStem(name, ext);
  }

  lemma FileStem(name: string, ext: string)
    requires '.' !in name
    ensures Split(name + "." + ext, '.')[0] == name
  {
    FirstField(name + "." + ext, '.');
    var r := Split(name + "." + ext, '.')[0];
    assert (name + "." + ext)[|name|] == '.';
    assert (name + "." + ext)[..|name|] == name;
  }

  /** The destroy calls a delete makes for a record's image: one call with
      the public id when the image URL and the id are both non-empty. */
  function DestroyCalls(image: string): (calls: seq<string>)
    ensures |calls| <= 1
    ensures |calls| == 1 <==> image != "" && PublicId(image) != ""
    ensures forall c :: c in calls ==> c == PublicId(image) && c != ""
  {
    if image != "" && PublicId(image) != "" then [PublicId(image)] else []
  }

  // ---------------------------------------------------------------------
  // The store
  // ---------------------------------------------------------------------

  predicate NoDuplicates(ids: seq<string>)
  {
    forall i, j :: 0 <= i < j < |ids| ==> ids[i] != ids[j]
  }

  /** `ids` with `x` removed, the rest in the same order. */
  function Without(ids: seq<string>, x: string): (r: seq<string>)
    ensures forall y :: y in r <==> y in ids && y != x
    ensures NoDuplicates(ids) ==> NoDuplicates(r)
    ensures |r| <= |ids|
  {
    if ids == [] then []
    else
      var rest := Without(ids[1..], x);
      assert forall y :: y in ids <==> y == ids[0] || y in ids[1..];
      if ids[0] == x then rest
      else
        assert NoDuplicates(ids) ==> ids[0] !in ids[1..];
        [ids[0]] + rest
  }

  /** Removing an id that occurs once shortens the sequence by one. */
  lemma {:induction false} WithoutLength(ids: seq<string>, x: string)
    requires NoDuplicates(ids) && x in ids
    ensures |Without(ids, x)| == |ids| - 1
  {
    if ids[0] != x {
      assert x in ids[1..];
      WithoutLength(ids[1..], x);
    } else {
      assert x !in ids[1..];
      WithoutAbsent(ids[1..], x);
    }
  }

  /** Removing the id at position `k` of a duplicate-free sequence keeps
      the ids before it and after it, in order. */
  lemma {:induction false} WithoutAt(ids: seq<string>, k: nat)
    requires NoDuplicates(ids) && k < |ids|
    ensures Without(ids, ids[k]) == ids[..k] + ids[k + 1..]
  {
    if k == 0 {
      assert ids[0] !in ids[1..];
      WithoutAbsent(ids[1..], ids[0]);
    } else {
      var tail := ids[1..];
      assert tail[k - 1] == ids[k];
      WithoutAt(tail, k - 1);
      assert ids[0] != ids[k];
      assert ids[..k] == [ids[0]] + tail[..k - 1];
      assert ids[k + 1..] == tail[k..];
    }
  }

  /** `WithoutAt` for whichever position holds `x`. */
  lemma WithoutKeepsOrder(ids: seq<string>, x: string)
    requires NoDuplicates(ids)
    ensures forall k :: 0 <= k < |ids| && ids[k] == x ==> Without(ids, x) == ids[..k] + ids[k + 1..]
  {
    forall k | 0 <= k < |ids| && ids[k] == x
      ensures Without(ids, x) == ids[..k] + ids[k + 1..]
    {
      WithoutAt(ids, k);
    }
  }

  lemma {:induction false} WithoutAbsent(ids: seq<string>, x: string)
    requires x !in ids
    ensures Without(ids, x) == ids
  {
    if ids != [] {
      WithoutAbsent(ids[1..], x);
    }
  }

  /** The records of `m` listed in the order of `ids`. */
  function InOrder(ids: seq<string>, m: map<string, Book>): (r: seq<Book>)
    requires forall i :: 0 <= i < |ids| ==> ids[i] in m
    ensures |r| == |ids|
    ensures forall i :: 0 <= i < |ids| ==> r[i] == m[ids[i]]
  {
    if ids == [] then [] else [m[ids[0]]] + InOrder(ids[1..], m)
  }

  class BookStore {
    /** The collection, by id. */
    var books: map<string, Book>
    /** The order in which the store returns the records when no sort is
        given; the model takes it to be insertion order. */
    var order: seq<string>
    /** Every image sent to the image host, in order. */
    var uploads: seq<string>
    /** Every public id the image host was asked to destroy, in order. */
    var destroyed: seq<string>

    /** `order` lists every id of `books` exactly once. */
    ghost predicate Valid()
      reads this
    {
      && (forall i :: 0 <= i < |order| ==> order[i] in books)
      && (forall id :: id in books ==> id in order)
      && NoDuplicates(order)
    }

    /** The records in store order. */
    function Records(): (r: seq<Book>)
      reads this
      requires Valid()
      ensures |r| == |order| == |books|
      ensures forall i :: 0 <= i < |order| ==> r[i] == books[order[i]]
    {
      OrderListsKeys(order, books);
      InOrder(order, books)
    }

    constructor ()
      ensures Valid()
      ensures books == map[] && order == [] && uploads == [] && destroyed == []
    {
      books, order, uploads, destroyed := map[], [], [], [];
    }

    /** `POST /books` for the authenticated `requester`. The upload answer
        and the id the store generates for the new record are parameters;
        `now` is the store's clock. */
    method Create(body: CreateBody, requester: string, upload: Upload, newId: string, now: int)
      returns (r: Response)
      requires Valid()
      modifies this
      ensures Valid()
      ensures destroyed == old(destroyed)
      ensures !HasRequiredFields(body) ==>
        r == Response(400, Message(AllFieldsRequired)) && uploads == old(uploads)
        && books == old(books) && order == old(order)
      ensures HasRequiredFields(body) ==> uploads == old(uploads) + [body.image.value]
      ensures HasRequiredFields(body) && upload.UploadFailed? ==>
        r == Response(500, Message(upload.message)) && books == old(books) && order == old(order)
      ensures HasRequiredFields(body) && upload.Uploaded? && newId in old(books) ==>
        r == Response(500, Message(DuplicateKey)) && books == old(books) && order == old(order)
      ensures HasRequiredFields(body) && upload.Uploaded? && newId !in old(books) ==>
        var b := Book(body.title.value, body.caption.value, upload.secureUrl, body.rating.value, requester, now);
        && r == Response(201, Created(newId, b))
        && books == old(books)[newId := b]
        && order == old(order) + [newId]
    {
      if !HasRequiredFields(body) {
        return Response(400, Message(AllFieldsRequired));
      }
      uploads := uploads + [body.image.value];
      if upload.UploadFailed? {
        return Response(500, Message(upload.message));
      }
      var b := Book(body.title.value, body.caption.value, upload.secureUrl, body.rating.value, requester, now);
      if newId in books {
        return Response(500, Message(DuplicateKey));
      }
      books := books[newId := b];
      order := order + [newId];
      r := Response(201, Created(newId, b));
    }

    /** `GET /books?page=&limit=`: one page in store order, with the page
        count for `limit`. */
    method ListPage(page: int := DefaultPage, limit: nat := DefaultLimit) returns (r: Response)
      requires Valid()
      requires limit > 0
      ensures page < 1 ==> r == Response(500, Message(NegativeSkip))
      ensures page >= 1 ==> r.status == 200 && r.body.Page?
      ensures page >= 1 ==> r.body.books == PageOf(Records(), Skip(page, limit), limit)
      ensures page >= 1 ==> r.body.currentPage == page && r.body.totalBooks == |books|
      ensures page >= 1 ==> r.body.totalPages == TotalPages(|books|, limit)
    {
      var skip := Skip(page, limit);
      if skip < 0 {
        return Response(500, Message(NegativeSkip));
      }
      var total := |books|;
      r := Response(200, Page(PageOf(Records(), skip, limit), page, TotalPages(total, limit), total));
    }

    /** `GET /books/user`: exactly the requester's records, newest first. */
    method ListByOwner(requester: string) returns (r: Response)
      requires Valid()
      ensures r.status == 200 && r.body.BookList?
      ensures NewestFirst(r.body.books)
      ensures forall b :: multiset(r.body.books)[b] == if b.user == requester then multiset(Records())[b] else 0
    {
      var own := OwnedBy(Records(), requester);
      r := Response(200, BookList(SortNewestFirst(own)));
    }

    /** `DELETE /books/:id` for the authenticated `requester`: 404 for an
        unknown id, 401 for someone else's record, otherwise a best-effort
        destroy of the image followed by removal of the record. Whatever the
        image host answers to the destroy, the record is removed. */
    method Delete(id: string, requester: string) returns (r: Response)
      requires Valid()
      modifies this
      ensures Valid()
      ensures uploads == old(uploads)
      ensures id !in old(books) ==>
        r == Response(404, Message(BookNotFound))
        && books == old(books) && order == old(order) && destroyed == old(destroyed)
      ensures id in old(books) && old(books)[id].user != requester ==>
        r == Response(401, Message(NotOwner))
        && books == old(books) && order == old(order) && destroyed == old(destroyed)
      ensures id in old(books) && old(books)[id].user == requester ==>
        && r == Response(200, Message(BookDeleted))
        && books == old(books) - {id}
        && order == Without(old(order), id)
        && (forall k :: 0 <= k < |old(order)| && old(order)[k] == id ==>
              order == old(order)[..k] + old(order)[k + 1..])
        && destroyed == old(destroyed) + DestroyCalls(old(books)[id].image)
    {
      if id !in books {
        return Response(404, Message(BookNotFound));
      }
      var book := books[id];
      if book.user != requester {
        return Response(401, Message(NotOwner));
      }
      if book.image != "" {
        var publicId := PublicId(book.image);
        if publicId != "" {
          destroyed := destroyed + [publicId];
        }
      }
      var rest := Without(order, id);
      WithoutKeepsOrder(order, id);
      forall i | 0 <= i < |rest| ensures rest[i] in books - {id} {
        assert rest[i] in rest;
      }
      books := books - {id};
      order := rest;
      r := Response(200, Message(BookDeleted));
    }
  }

  /** Helper for `Records`: the ids of a valid store index its map. */
  lemma OrderListsKeys(order: seq<string>, books: map<string, Book>)
    requires forall i :: 0 <= i < |order| ==> order[i] in books
    requires forall id :: id in books ==> id in order
    requires NoDuplicates(order)
    ensures |order| == |books|
  {
    var ids := set i | 0 <= i < |order| :: order[i];
    assert ids == books.Keys;
    IndexSetSize(order);
  }

  lemma {:induction false} IndexSetSize(order: seq<string>)
    requires NoDuplicates(order)
    ensures |set i | 0 <= i < |order| :: order[i]| == |order|
  {
    if order != [] {
      var last := |order| - 1;
      var init := order[..last];
      IndexSetSize(init);
      var full := set i | 0 <= i < |order| :: order[i];
      var part := set i | 0 <= i < |init| :: init[i];
      assert full == part + {order[last]};
      assert order[last] !in part;
    }
  }

  /** A successful owner delete leaves every other record as it was and
      removes exactly one record. */
  lemma OwnerDeleteFrame(before: map<string, Book>, after: map<string, Book>, id: string)
    requires id in before && after == before - {id}
    ensures id !in after && |after| == |before| - 1
    ensures forall k :: k in before && k != id ==> k in after && after[k] == before[k]
  {
  }
}
