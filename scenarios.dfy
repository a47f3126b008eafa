/** Properties that span several requests: a created book as the read and
    update handlers later see it, and what an update does to ownership. */
module Scenarios {
  import opened Wrappers
  import opened Items
  import opened Http
  import opened JsNumbers
  import opened Auth
  import opened BookIds
  import AddBookSpec
  import UpdateBookSpec
  import GetBookById

  /** A caller whose token verifies with subject `sub`. */
  predicate SignedInAs(cookies: Option<CookieMap>, config: Config, verify: VerifyRequest -> Verification, sub: string) {
    cookies.Some? && verify(VerifyRequestFor(cookies.value, config)) == Verified(Jwt(Some(sub)))
  }

  /** A book created by `owner` with a body naming no `userId` is served by
      `GET /books/${id}` with `owner` recorded as its `userId`; the read
      needs no cookie. */
  lemma CreatedBookIsServed(books: map<int, Item>, cookies: Option<CookieMap>, config: Config,
                            verify: VerifyRequest -> Verification, owner: string, fields: Item, id: int)
    requires SignedInAs(cookies, config, verify, owner)
    requires id != 0 && Field(fields, "id") == Num(id) && "userId" !in fields
    ensures var (reply, after) := AddBookSpec.Outcome(books, cookies, Fields(fields), config, verify, Completes);
            && reply == AddBookSpec.Added
            && var served := GetBookById.Handler(Some(ShowInt(id)), after, Completes);
               served.status == 200 && Field(served.payload.item, "userId") == Str(owner)
  {
    PathIdShowInt(id, "");
    assert ShowInt(id) + "" == ShowInt(id);
  }

  /** Ownership enforcement: after `owner` creates a book, an update of it
      through `PUT /books/${id}` by any other subject is refused with "You
      are not the owner" and the table is left as it was. */
  lemma ForeignUpdateRefused(books: map<int, Item>, cookies: Option<CookieMap>, config: Config,
                             verify: VerifyRequest -> Verification, owner: string, fields: Item, id: int,
                             cookies2: Option<CookieMap>, verify2: VerifyRequest -> Verification, other: string,
                             update: Item, put2: StoreCall)
    requires SignedInAs(cookies, config, verify, owner)
    requires id != 0 && Field(fields, "id") == Num(id) && "userId" !in fields
    requires SignedInAs(cookies2, config, verify2, other) && other != owner
    ensures var (_, created) := AddBookSpec.Outcome(books, cookies, Fields(fields), config, verify, Completes);
            UpdateBookSpec.Outcome(created, Some(ShowInt(id)), cookies2, Fields(update), config, verify2, Completes, put2)
              == (UpdateBookSpec.NotOwner, created)
  {
    PathIdShowInt(id, "");
    assert ShowInt(id) + "" == ShowInt(id);
  }

  /** The owner's own update goes through, but the record is replaced whole:
      the owner survives only if the update body repeats `userId`, and the
      body's `userId`, if any, becomes the new owner. */
  lemma OwnerUpdateReplacesOwner(books: map<int, Item>, cookies: Option<CookieMap>, config: Config,
                                 verify: VerifyRequest -> Verification, owner: string, fields: Item, id: int,
                                 update: Item)
    requires SignedInAs(cookies, config, verify, owner)
    requires id != 0 && Field(fields, "id") == Num(id) && "userId" !in fields
    requires "id" !in update
    ensures var (_, created) := AddBookSpec.Outcome(books, cookies, Fields(fields), config, verify, Completes);
            var (reply, updated) :=
              UpdateBookSpec.Outcome(created, Some(ShowInt(id)), cookies, Fields(update), config, verify, Completes, Completes);
            && reply == UpdateBookSpec.Updated(id)
            && id in updated && Field(updated[id], "userId") == Field(update, "userId")
  {
    PathIdShowInt(id, "");
    assert ShowInt(id) + "" == ShowInt(id);
  }

  /** The owner check is made against the book the path names, but the
      item is written under the body's `id`: the owner of book `a` can
      overwrite another subject's book `b` by sending `"id": b`, and then
      owns `b`. The path's book is left as it was. */
  lemma UpdateOverwritesBookNamedInBody(books: map<int, Item>, cookies: Option<CookieMap>, config: Config,
                                        verify: VerifyRequest -> Verification, owner: string,
                                        a: int, b: int, update: Item)
    requires SignedInAs(cookies, config, verify, owner)
    requires a != 0 && a in books && Field(books[a], "userId") == Str(owner)
    requires b != a && b in books && Field(books[b], "userId") != Str(owner)
    requires Field(update, "id") == Num(b) && Field(update, "userId") == Str(owner)
    ensures var (reply, after) :=
              UpdateBookSpec.Outcome(books, Some(ShowInt(a)), cookies, Fields(update), config, verify, Completes, Completes);
            && reply == UpdateBookSpec.Updated(a)
            && after == books[b := UpdateBookSpec.Replacement(a, update)]
            && Field(after[b], "userId") == Str(owner)
            && after[a] == books[a]
  {
    PathIdShowInt(a, "");
    assert ShowInt(a) + "" == ShowInt(a);
  }

  /** An update whose body has no `userId` leaves the record without an
      owner, so every later update of it by a caller with a subject who gets
      as far as the owner check is refused with "You are not the owner". */
  lemma UpdateWithoutOwnerOrphans(books: map<int, Item>, param: Option<string>, cookies: Option<CookieMap>,
                                  update: Item, config: Config, verify: VerifyRequest -> Verification, put: StoreCall,
                                  param2: Option<string>, cookies2: Option<CookieMap>, verify2: VerifyRequest -> Verification,
                                  caller: string, update2: Item, put2: StoreCall)
    requires "userId" !in update
    requires UpdateBookSpec.Outcome(books, param, cookies, Fields(update), config, verify, Completes, put).0.Reply?
    requires UpdateBookSpec.Outcome(books, param, cookies, Fields(update), config, verify, Completes, put).0.status == 201
    requires SignedInAs(cookies2, config, verify2, caller)
    requires PathId(param2) == KeyOf(UpdateBookSpec.Replacement(PathId(param).value, update))
    ensures var (_, updated) := UpdateBookSpec.Outcome(books, param, cookies, Fields(update), config, verify, Completes, put);
            UpdateBookSpec.Outcome(updated, param2, cookies2, Fields(update2), config, verify2, Completes, put2)
              == (UpdateBookSpec.NotOwner, updated)
  {
  }
}
