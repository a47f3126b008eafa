/** lambda/getBookById.ts: read one book by the `bookId` path parameter. The
    route is not behind the authorizer, so no cookie enters. */
module GetBookById {
  import opened Wrappers
  import opened Items
  import opened Http
  import opened BookIds

  const InvalidId := Reply(400, Message("Invalid or missing bookId path parameter"))
  const NotFound := Reply(404, Message("Book not found"))

  /** The handler: validate the id, then one `GetCommand` on the Books table
      whose outcome is `get`. The table is an argument, so it is not
      written. */
  function Handler(param: Option<string>, books: map<int, Item>, get: StoreCall): (r: Reply)
    ensures r.Reply?
    ensures r == InvalidId <==> PathId(param).None?
    ensures r == NotFound <==> PathId(param).Some? && get.Completes? && PathId(param).value !in books
    ensures r.status == 200 <==> PathId(param).Some? && get.Completes? && PathId(param).value in books
    ensures r.status == 200 ==> r.payload == BookItem(books[PathId(param).value])
    ensures PathId(param).Some? && get.Fails? ==> r == Reply(500, IdFailure(PathId(param).value, get.error))
  {
    match PathId(param)
    case None => InvalidId
    case Some(id) =>
      match get
      case Fails(e) => Reply(500, IdFailure(id, e))
      case Completes =>
        if id in books then Reply(200, BookItem(books[id])) else NotFound
  }

  /** A served book is the item stored under the requested key, and it
      carries that key, in a well-keyed table. */
  lemma ServedBookCarriesItsKey(param: Option<string>, books: map<int, Item>, get: StoreCall)
    requires WellKeyed(books)
    requires Handler(param, books, get).status == 200
    ensures KeyOf(Handler(param, books, get).payload.item) == PathId(param)
  {
  }
}
