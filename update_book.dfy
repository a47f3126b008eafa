/** lambda/updateBook.ts as a specification: the guard chain (cookies, token
    verification, id, existence, body, owner) and the whole-item put, as a
    function from the old Books table to the reply and the new table. The
    imperative handler in `Service` is proved equal to it. */
module UpdateBookSpec {
  import opened Wrappers
  import opened Items
  import opened Http
  import opened JsNumbers
  import opened Auth
  import opened BookIds

  const Unauthorised := Reply(200, Plain("Unauthorised request!!"))
  const InvalidId := Reply(400, Message("Invalid or missing bookId path parameter"))
  const NotFound := Reply(404, Message("Book not found"))
  const MissingBody := Reply(500, Message("Missing request body"))
  const NotOwner := Reply(500, Message("You are not the owner"))
  /** `verifiedJwt!.sub` on a nullish result: the assertion is erased, so the
      property read throws a `TypeError` inside the `try`. */
  const NoClaims := Reply(500, Failure("TypeError"))
  /** DynamoDB refuses an item whose `id` key attribute is not a number. */
  const BadKey := Reply(500, Failure("ValidationException"))

  function Updated(id: int): Reply {
    Reply(201, Message("Book with the " + ShowInt(id) + " bookId updated"))
  }

  /** `sub != item.userId` is false: loose equality of the caller's subject
      with the stored owner. `undefined` equals `undefined` and `null`; a
      string equals the same string. */
  predicate IsOwner(sub: Option<string>, owner: Value) {
    match sub
    case None => owner == Undefined || owner == Null
    case Some(s) => owner == Str(s)
  }

  /** The owner check admits at most one signed-in subject for a stored
      owner: two subjects that both pass it are the same subject. */
  lemma OneSubjectOwns(a: string, b: string, owner: Value)
    requires IsOwner(Some(a), owner) && IsOwner(Some(b), owner)
    ensures a == b
  {
  }

  /** A book without an owner (absent or null `userId`) passes the owner
      check only for a verification without a subject; no signed-in subject
      owns it. A string owner is owned by the subject of that name. */
  lemma OwnerlessBookHasNoSubjectOwner(s: string, owner: Value)
    ensures (owner == Undefined || owner == Null) ==> !IsOwner(Some(s), owner) && IsOwner(None, owner)
    ensures IsOwner(Some(s), Str(s))
  {
  }

  /** `{ id: bookId, ...body }` after marshalling: the body's properties
      override the path id, and nothing of the stored item survives. */
  function Replacement(id: int, body: Item): (item: Item)
    ensures Stored(item)
    ensures forall k :: k != "id" ==> Field(item, k) == Field(body, k)
    ensures "id" !in body ==> KeyOf(item) == Some(id)
    ensures "id" in body ==> Field(item, "id") == body["id"]
  {
    RemoveUndefined(Spread(map["id" := Num(id)], body))
  }

  /** The handler's reply and the Books table after it. */
  function Outcome(books: map<int, Item>, param: Option<string>, cookies: Option<CookieMap>, body: RequestBody,
                   config: Config, verify: VerifyRequest -> Verification, get: StoreCall, put: StoreCall)
    : (o: (Reply, map<int, Item>))
    // only a 201 writes the table
    ensures o.1 == books || (o.0.Reply? && o.0.status == 201)
    // the table invariant is kept
    ensures WellKeyed(books) ==> WellKeyed(o.1)
    // the cookie check comes first; the verifier's rejection escapes before the id check
    ensures cookies.None? ==> o == (Unauthorised, books)
    ensures cookies.Some? && verify(VerifyRequestFor(cookies.value, config)).Threw? ==>
              o == (Unhandled(verify(VerifyRequestFor(cookies.value, config)).error), books)
    ensures cookies.Some? && !verify(VerifyRequestFor(cookies.value, config)).Threw? && PathId(param).None? ==>
              o == (InvalidId, books)
    // a 404 means the id was valid and absent; the owner was never consulted
    ensures o.0 == NotFound <==>
              cookies.Some? && !verify(VerifyRequestFor(cookies.value, config)).Threw? && PathId(param).Some?
              && get.Completes? && PathId(param).value !in books
    // a missing body is reported before ownership is checked
    ensures (cookies.Some? && !verify(VerifyRequestFor(cookies.value, config)).Threw? && PathId(param).Some?
             && get.Completes? && PathId(param).value in books && (body.NoBody? || body.FalsyJson?))
            ==> o == (MissingBody, books)
    // an ownership rejection means the book exists, a body was sent, and the subject differs
    ensures o.0 == NotOwner ==>
              cookies.Some? && PathId(param).Some? && PathId(param).value in books && body.Fields?
              && verify(VerifyRequestFor(cookies.value, config)).Verified?
              && !IsOwner(verify(VerifyRequestFor(cookies.value, config)).jwt.sub,
                          Field(books[PathId(param).value], "userId"))
    // past the id check, a failed read of the book is a 500 with the store's error
    ensures (cookies.Some? && !verify(VerifyRequestFor(cookies.value, config)).Threw? && PathId(param).Some?
             && get.Fails?) ==> o == (Reply(500, Failure(get.error)), books)
    // an existing book and a body JSON.parse throws on: a 500 with the parser's error
    ensures (cookies.Some? && !verify(VerifyRequestFor(cookies.value, config)).Threw? && PathId(param).Some?
             && get.Completes? && PathId(param).value in books && body.Unparsable?)
            ==> o == (Reply(500, Failure(body.error)), books)
    // an existing book and a body, but a nullish verification: reading `sub` throws
    ensures (cookies.Some? && verify(VerifyRequestFor(cookies.value, config)).Nullish? && PathId(param).Some?
             && get.Completes? && PathId(param).value in books && body.Fields?)
            ==> o == (NoClaims, books)
    // a verified subject other than the stored owner is refused, and nothing is written
    ensures (cookies.Some? && verify(VerifyRequestFor(cookies.value, config)).Verified? && PathId(param).Some?
             && get.Completes? && PathId(param).value in books && body.Fields?
             && !IsOwner(verify(VerifyRequestFor(cookies.value, config)).jwt.sub,
                         Field(books[PathId(param).value], "userId")))
            ==> o == (NotOwner, books)
    // the owner's update puts the replacement; the store refuses a non-numeric key
    ensures (cookies.Some? && verify(VerifyRequestFor(cookies.value, config)).Verified? && PathId(param).Some?
             && get.Completes? && PathId(param).value in books && body.Fields?
             && IsOwner(verify(VerifyRequestFor(cookies.value, config)).jwt.sub,
                        Field(books[PathId(param).value], "userId")))
            ==> var item := Replacement(PathId(param).value, body.fields);
                if KeyOf(item).None? then o == (BadKey, books)
                else if put.Fails? then o == (Reply(500, Failure(put.error)), books)
                else o == (Updated(PathId(param).value), books[KeyOf(item).value := item])
    // success: the caller owned the existing book, and exactly the replacement was put
    ensures o.0.Reply? && o.0.status == 201 ==>
              && cookies.Some? && PathId(param).Some? && PathId(param).value in books
              && verify(VerifyRequestFor(cookies.value, config)).Verified?
              && IsOwner(verify(VerifyRequestFor(cookies.value, config)).jwt.sub,
                         Field(books[PathId(param).value], "userId"))
              && body.Fields? && put.Completes?
              && var item := Replacement(PathId(param).value, body.fields);
                 KeyOf(item).Some? && o == (Updated(PathId(param).value), books[KeyOf(item).value := item])
  {
    if cookies.None? then (Unauthorised, books)
    else
      var verification := verify(VerifyRequestFor(cookies.value, config));
      if verification.Threw? then (Unhandled(verification.error), books)
      else if PathId(param).None? then (InvalidId, books)
      else
        var id := PathId(param).value;
        if get.Fails? then (Reply(500, Failure(get.error)), books)
        else if id !in books then (NotFound, books)
        else if body.NoBody? || body.FalsyJson? then (MissingBody, books)
        else if body.Unparsable? then (Reply(500, Failure(body.error)), books)
        else if verification.Nullish? then (NoClaims, books)
        else if !IsOwner(verification.jwt.sub, Field(books[id], "userId")) then (NotOwner, books)
        else
          var item := Replacement(id, body.fields);
          if KeyOf(item).None? then (BadKey, books)
          else if put.Fails? then (Reply(500, Failure(put.error)), books)
          else
            PutKeepsWellKeyed(books, item);
            (Updated(id), books[KeyOf(item).value := item])
  }
}
