/** lambda/addBook.ts as a specification: the cookie and body guards and the
    unconditional put of `{ userId: sub, ...body }`, as a function from the
    old Books table to the reply and the new table. The imperative handler
    in `Service` is proved equal to it. */
module AddBookSpec {
  import opened Wrappers
  import opened Items
  import opened Http
  import opened Auth

  const Unauthorised := Reply(400, Plain("Unauthorised request!!"))
  const MissingBody := Reply(500, Message("Missing request body"))
  const Added := Reply(201, Message(" book added"))
  /** DynamoDB refuses an item without a numeric `id` key attribute. */
  const BadKey := Reply(500, Failure("ValidationException"))

  /** `{ userId: verifiedJwt?.sub, ...body }` after marshalling: a body
      `userId` wins over the verified subject; without one the subject is
      the owner, and with no subject either the item has no owner. Every
      other property is the body's. */
  function Stamped(subject: Option<string>, body: Item): (item: Item)
    ensures Stored(item)
    ensures "userId" in body ==> Field(item, "userId") == body["userId"]
    ensures "userId" !in body ==>
              Field(item, "userId") == (if subject.Some? then Str(subject.value) else Undefined)
    ensures forall k :: k != "userId" ==> Field(item, k) == Field(body, k)
  {
    var owner := if subject.Some? then Str(subject.value) else Undefined;
    RemoveUndefined(Spread(map["userId" := owner], body))
  }

  /** The handler's reply and the Books table after it. */
  function Outcome(books: map<int, Item>, cookies: Option<CookieMap>, body: RequestBody,
                   config: Config, verify: VerifyRequest -> Verification, put: StoreCall)
    : (o: (Reply, map<int, Item>))
    // only a 201 writes the table
    ensures o.1 == books || o.0 == Added
    // the table invariant is kept
    ensures WellKeyed(books) ==> WellKeyed(o.1)
    ensures cookies.None? ==> o == (Unauthorised, books)
    ensures cookies.Some? && verify(VerifyRequestFor(cookies.value, config)).Threw? ==>
              o == (Unhandled(verify(VerifyRequestFor(cookies.value, config)).error), books)
    ensures (cookies.Some? && !verify(VerifyRequestFor(cookies.value, config)).Threw?
             && (body.NoBody? || body.FalsyJson?)) ==> o == (MissingBody, books)
    // a body JSON.parse throws on: a 500 with the parser's error
    ensures (cookies.Some? && !verify(VerifyRequestFor(cookies.value, config)).Threw? && body.Unparsable?)
            ==> o == (Reply(500, Failure(body.error)), books)
    // with a body, the stamped item is put: the store refuses a non-numeric key and reports its own failures
    ensures (cookies.Some? && !verify(VerifyRequestFor(cookies.value, config)).Threw? && body.Fields?) ==>
              var item := Stamped(SubjectOf(verify(VerifyRequestFor(cookies.value, config))), body.fields);
              if KeyOf(item).None? then o == (BadKey, books)
              else if put.Fails? then o == (Reply(500, Failure(put.error)), books)
              else o == (Added, books[KeyOf(item).value := item])
    // a 201 put exactly the stamped item under its own id, replacing whatever was there
    ensures o.0 == Added <==>
              && cookies.Some? && !verify(VerifyRequestFor(cookies.value, config)).Threw?
              && body.Fields? && put.Completes?
              && KeyOf(Stamped(SubjectOf(verify(VerifyRequestFor(cookies.value, config))), body.fields)).Some?
    ensures o.0 == Added ==>
              var item := Stamped(SubjectOf(verify(VerifyRequestFor(cookies.value, config))), body.fields);
              o.1 == books[KeyOf(item).value := item]
  {
    if cookies.None? then (Unauthorised, books)
    else
      var verification := verify(VerifyRequestFor(cookies.value, config));
      if verification.Threw? then (Unhandled(verification.error), books)
      else if body.NoBody? || body.FalsyJson? then (MissingBody, books)
      else if body.Unparsable? then (Reply(500, Failure(body.error)), books)
      else
        var item := Stamped(SubjectOf(verification), body.fields);
        if KeyOf(item).None? then (BadKey, books)
        else if put.Fails? then (Reply(500, Failure(put.error)), books)
        else
          PutKeepsWellKeyed(books, item);
          (Added, books[KeyOf(item).value := item])
  }
}
