/** The three handlers that touch tables, as methods on one object holding
    the Books table (`books`, keyed by numeric `id`) and the Translations
    table (`cache`, keyed by (text, language)). Each method follows its
    handler's steps and early returns, and is proved to produce the reply and
    the new tables its specification function describes. The ghost
    `translatorLog` records every call to the translator. */
module Service {
  import opened Wrappers
  import opened Items
  import opened Http
  import opened JsNumbers
  import opened Auth
  import opened BookIds
  import AddBookSpec
  import UpdateBookSpec
  import TranslateSpec

  class Tables {
    var books: map<int, Item>
    var cache: TranslateSpec.Cache
    ghost var translatorLog: seq<TranslateSpec.TranslateRequest>

    ghost predicate Valid()
      reads this
    {
      WellKeyed(books)
    }

    constructor (initialBooks: map<int, Item>, initialCache: TranslateSpec.Cache)
      requires WellKeyed(initialBooks)
      ensures Valid()
      ensures books == initialBooks && cache == initialCache && translatorLog == []
    {
      books := initialBooks;
      cache := initialCache;
      translatorLog := [];
    }

    /** lambda/addBook.ts `handler`. */
    method AddBook(cookies: Option<CookieMap>, body: RequestBody, config: Config,
                   verify: VerifyRequest -> Verification, put: StoreCall) returns (reply: Reply)
      requires Valid()
      modifies this`books
      ensures Valid()
      ensures (reply, books) == AddBookSpec.Outcome(old(books), cookies, body, config, verify, put)
    {
      if cookies.None? {
        return AddBookSpec.Unauthorised;
      }
      var verification := verify(VerifyRequestFor(cookies.value, config));
      if verification.Threw? {
        // awaited outside the try: the rejection escapes the handler
        return Unhandled(verification.error);
      }
      if body.NoBody? || body.FalsyJson? {
        return AddBookSpec.MissingBody;
      }
      if body.Unparsable? {
        return Reply(500, Failure(body.error));
      }
      var item := AddBookSpec.Stamped(SubjectOf(verification), body.fields);
      var key := KeyOf(item);
      if key.None? {
        return AddBookSpec.BadKey;
      }
      if put.Fails? {
        return Reply(500, Failure(put.error));
      }
      PutKeepsWellKeyed(books, item);
      books := books[key.value := item];
      return AddBookSpec.Added;
    }

    /** lambda/updateBook.ts `handler`. */
    method UpdateBook(param: Option<string>, cookies: Option<CookieMap>, body: RequestBody, config: Config,
                      verify: VerifyRequest -> Verification, get: StoreCall, put: StoreCall) returns (reply: Reply)
      requires Valid()
      modifies this`books
      ensures Valid()
      ensures (reply, books) == UpdateBookSpec.Outcome(old(books), param, cookies, body, config, verify, get, put)
    {
      var bookId := PathId(param);
      if cookies.None? {
        return UpdateBookSpec.Unauthorised;
      }
      var verification := verify(VerifyRequestFor(cookies.value, config));
      if verification.Threw? {
        // awaited outside the try: the rejection escapes the handler
        return Unhandled(verification.error);
      }
      if bookId.None? {
        return UpdateBookSpec.InvalidId;
      }
      var id := bookId.value;
      if get.Fails? {
        return Reply(500, Failure(get.error));
      }
      if id !in books {
        return UpdateBookSpec.NotFound;
      }
      if body.NoBody? || body.FalsyJson? {
        return UpdateBookSpec.MissingBody;
      }
      if body.Unparsable? {
        return Reply(500, Failure(body.error));
      }
      if verification.Nullish? {
        return UpdateBookSpec.NoClaims;
      }
      if !UpdateBookSpec.IsOwner(verification.jwt.sub, Field(books[id], "userId")) {
        return UpdateBookSpec.NotOwner;
      }
      var item := UpdateBookSpec.Replacement(id, body.fields);
      var key := KeyOf(item);
      if key.None? {
        return UpdateBookSpec.BadKey;
      }
      if put.Fails? {
        return Reply(500, Failure(put.error));
      }
      PutKeepsWellKeyed(books, item);
      books := books[key.value := item];
      return UpdateBookSpec.Updated(id);
    }

    /** lambda/translateBookSummary.ts `handler`. The Books table is only
        read. */
    method TranslateBookSummary(bookId: Option<string>, language: Option<string>,
                                translate: TranslateSpec.TranslateRequest -> TranslateSpec.TranslateResult,
                                bookGet: StoreCall, cacheGet: StoreCall, cachePut: StoreCall) returns (reply: Reply)
      modifies this`cache, this`translatorLog
      ensures var o := TranslateSpec.Handler(books, old(cache), bookId, language, translate, bookGet, cacheGet, cachePut);
              reply == o.reply && cache == o.cache && translatorLog == old(translatorLog) + o.calls
    {
      if !TranslateSpec.Given(bookId) || !TranslateSpec.Given(language) {
        return TranslateSpec.MissingParams;
      }
      var target := language.value;
      var id := NumberOf(bookId.value);
      if id.None? || bookGet.Fails? {
        return TranslateSpec.InternalError;
      }
      if id.value !in books {
        return TranslateSpec.NotFound;
      }
      var book := books[id.value];
      var summary := TranslateSpec.SummaryKey(Field(book, "summary"));
      if summary.None? || cacheGet.Fails? {
        return TranslateSpec.InternalError;
      }
      var key := (summary.value, target);
      if key in cache {
        return Reply(200, Translation(key.0, cache[key], target));
      }
      var call := TranslateSpec.TranslateRequest(Field(book, "language"), target, summary.value);
      var result := translate(call);
      translatorLog := translatorLog + [call];
      if result.TranslateFailed? || cachePut.Fails? {
        return TranslateSpec.InternalError;
      }
      cache := cache[key := result.text];
      return Reply(200, Translation(summary.value, result.text, target));
    }
  }
}
