/** lambda/translateBookSummary.ts as a specification: parameter check, book
    lookup, cache-aside lookup in the Translations table under the exact
    key (summary, target language), translate on a miss, cache write. The
    Translations table is a map from that key to the stored translation; the
    translator is a function parameter, and the outcome lists the calls made
    to it. The imperative handler in `Service` is proved equal to it. */
module TranslateSpec {
  import opened Wrappers
  import opened Items
  import opened Http
  import opened JsNumbers

  /** The Translations table: (text, language) to translation. */
  type Cache = map<(string, string), string>

  /** The arguments of one `TranslateTextCommand`: the book's `language`
      attribute as source, the requested language as target, the summary. */
  datatype TranslateRequest = TranslateRequest(source: Value, target: string, text: string)

  /** How the awaited translator call settles. */
  datatype TranslateResult = Translated(text: string) | TranslateFailed(error: string)

  /** The reply, the Translations table after the request, and the translator
      calls the request made, in order. */
  datatype Outcome = Outcome(reply: Reply, cache: Cache, calls: seq<TranslateRequest>)

  const MissingParams := Reply(400, Message("Missing bookId or target language"))
  const NotFound := Reply(404, Message("Book not found"))
  /** Every error caught by the handler, whatever it was. */
  const InternalError := Reply(500, Message("Internal Server Error"))

  /** The summary as a Translations key: the key attribute must be a
      non-empty string (an absent summary fails marshalling, another type or
      the empty string is refused by the store). No normalisation. */
  function SummaryKey(summary: Value): (key: Option<string>)
    ensures key.Some? <==> summary.Str? && summary.s != ""
    ensures key.Some? ==> key.value == summary.s
  {
    if summary.Str? && summary.s != "" then Some(summary.s) else None
  }

  /** A present, non-empty query or path parameter. */
  predicate Given(p: Option<string>) {
    p.Some? && p.value != ""
  }

  /** The book the request names, when the parameters are given, `Number`
      reads the id and the book is in the table. */
  predicate NamesBook(books: map<int, Item>, bookId: Option<string>) {
    Given(bookId) && NumberOf(bookId.value).Some? && NumberOf(bookId.value).value in books
  }

  /** The handler. `bookGet`, `cacheGet` and `cachePut` are the outcomes of
      the three store calls, in order. */
  function Handler(books: map<int, Item>, cache: Cache, bookId: Option<string>, language: Option<string>,
                   translate: TranslateRequest -> TranslateResult,
                   bookGet: StoreCall, cacheGet: StoreCall, cachePut: StoreCall): (o: Outcome)
    ensures o.reply.Reply?
    // missing parameters: nothing is read, called or written
    ensures !Given(bookId) || !Given(language) ==> o == Outcome(MissingParams, cache, [])
    // an absent book: not found, nothing called or written
    ensures (Given(bookId) && Given(language) && NumberOf(bookId.value).Some? && bookGet.Completes?
             && NumberOf(bookId.value).value !in books) ==> o == Outcome(NotFound, cache, [])
    // an id `Number` cannot read, a failed book read, a summary that is no key, or a failed cache read: 500
    ensures (Given(bookId) && Given(language) && NumberOf(bookId.value).None?) ==> o == Outcome(InternalError, cache, [])
    ensures (Given(bookId) && Given(language) && NumberOf(bookId.value).Some? && bookGet.Fails?)
            ==> o == Outcome(InternalError, cache, [])
    ensures (NamesBook(books, bookId) && Given(language) && bookGet.Completes?
             && SummaryKey(Field(books[NumberOf(bookId.value).value], "summary")).None?)
            ==> o == Outcome(InternalError, cache, [])
    ensures (NamesBook(books, bookId) && Given(language) && bookGet.Completes?
             && SummaryKey(Field(books[NumberOf(bookId.value).value], "summary")).Some? && cacheGet.Fails?)
            ==> o == Outcome(InternalError, cache, [])
    // a hit answers 200 with the stored translation, without calling the translator or writing
    ensures (NamesBook(books, bookId) && Given(language) && bookGet.Completes? && cacheGet.Completes?
             && SummaryKey(Field(books[NumberOf(bookId.value).value], "summary")).Some?)
            ==> var book := books[NumberOf(bookId.value).value];
                var key := (Field(book, "summary").s, language.value);
                key in cache ==> o == Outcome(Reply(200, Translation(key.0, cache[key], key.1)), cache, [])
    // a miss calls the translator exactly once, with the book's language, the target and the summary
    ensures (NamesBook(books, bookId) && Given(language) && bookGet.Completes? && cacheGet.Completes?
             && SummaryKey(Field(books[NumberOf(bookId.value).value], "summary")).Some?)
            ==> var book := books[NumberOf(bookId.value).value];
                var key := (Field(book, "summary").s, language.value);
                key !in cache ==> o.calls == [TranslateRequest(Field(book, "language"), language.value, key.0)]
    // at most one translator call, and only on a miss for the book's exact key
    ensures |o.calls| <= 1
    ensures |o.calls| == 1 ==>
              && NamesBook(books, bookId) && Given(language)
              && var book := books[NumberOf(bookId.value).value];
                 && SummaryKey(Field(book, "summary")).Some?
                 && o.calls[0] == TranslateRequest(Field(book, "language"), language.value, Field(book, "summary").s)
                 && (o.calls[0].text, o.calls[0].target) !in cache
    // without a translator call the cache is unchanged
    ensures o.calls == [] ==> o.cache == cache
    // a failed translation or a failed cache write: 500, cache unchanged
    ensures |o.calls| == 1 && translate(o.calls[0]).TranslateFailed? ==> o.reply == InternalError && o.cache == cache
    ensures |o.calls| == 1 && cachePut.Fails? ==> o.reply == InternalError && o.cache == cache
    // a successful miss adds exactly the new entry and returns it
    ensures |o.calls| == 1 && translate(o.calls[0]).Translated? && cachePut.Completes? ==>
              var c := o.calls[0];
              var t := translate(c).text;
              o.reply == Reply(200, Translation(c.text, t, c.target)) && o.cache == cache[(c.text, c.target) := t]
    // any 200 returns what the cache now holds under the reply's key
    ensures o.reply.status == 200 ==>
              && o.reply.payload.Translation?
              && var p := o.reply.payload;
                 (p.text, p.language) in o.cache && o.cache[(p.text, p.language)] == p.translation
    // a hit: 200 with the stored entry, no call, nothing written
    ensures o.reply.status == 200 && o.calls == [] ==>
              && NamesBook(books, bookId) && Given(language)
              && var book := books[NumberOf(bookId.value).value];
                 && SummaryKey(Field(book, "summary")).Some?
                 && var key := (Field(book, "summary").s, language.value);
                    key in cache && o.reply == Reply(200, Translation(key.0, cache[key], key.1))
  {
    if !Given(bookId) || !Given(language) then Outcome(MissingParams, cache, [])
    else
      var target := language.value;
      match NumberOf(bookId.value)
      // a key `Number` cannot turn into an integer: the lookup fails
      case None => Outcome(InternalError, cache, [])
      case Some(id) =>
        if bookGet.Fails? then Outcome(InternalError, cache, [])
        else if id !in books then Outcome(NotFound, cache, [])
        else
          var book := books[id];
          match SummaryKey(Field(book, "summary"))
          case None => Outcome(InternalError, cache, [])
          case Some(summary) =>
            if cacheGet.Fails? then Outcome(InternalError, cache, [])
            else if (summary, target) in cache then
              Outcome(Reply(200, Translation(summary, cache[(summary, target)], target)), cache, [])
            else
              var call := TranslateRequest(Field(book, "language"), target, summary);
              match translate(call)
              case TranslateFailed(_) => Outcome(InternalError, cache, [call])
              case Translated(t) =>
                if cachePut.Fails? then Outcome(InternalError, cache, [call])
                else Outcome(Reply(200, Translation(summary, t, target)), cache[(summary, target) := t], [call])
  }

  /** Idempotence: once a request has been answered with 200, repeating it
      against the resulting cache (books unchanged, lookups completing) is a
      hit: no translator is called, whichever translator it would be, the
      cache is not written, and the reply is the same. */
  lemma RepeatedRequestHits(books: map<int, Item>, cache: Cache, bookId: Option<string>, language: Option<string>,
                            translate1: TranslateRequest -> TranslateResult, translate2: TranslateRequest -> TranslateResult,
                            bookGet1: StoreCall, cacheGet1: StoreCall, cachePut1: StoreCall, cachePut2: StoreCall)
    requires Handler(books, cache, bookId, language, translate1, bookGet1, cacheGet1, cachePut1).reply.status == 200
    ensures var first := Handler(books, cache, bookId, language, translate1, bookGet1, cacheGet1, cachePut1);
            var second := Handler(books, first.cache, bookId, language, translate2, Completes, Completes, cachePut2);
            second.calls == [] && second.cache == first.cache && second.reply == first.reply
  {
  }

  /** No normalisation: two books whose summaries differ, if only by a
      trailing space, use two cache entries. After the first book's
      translation is cached, a request for the second one still calls the
      translator, with the second summary. */
  lemma DistinctSummariesDistinctEntries(books: map<int, Item>, cache: Cache, id1: string, id2: string, language: string,
                                         translate: TranslateRequest -> TranslateResult, cachePut: StoreCall)
    requires Given(Some(id1)) && Given(Some(id2)) && Given(Some(language))
    requires NumberOf(id1).Some? && NumberOf(id1).value in books
    requires NumberOf(id2).Some? && NumberOf(id2).value in books
    requires Field(books[NumberOf(id1).value], "summary") == Str("Hello")
    requires Field(books[NumberOf(id2).value], "summary") == Str("Hello ")
    requires ("Hello ", language) !in cache
    ensures var first := Handler(books, cache, Some(id1), Some(language), translate, Completes, Completes, cachePut);
            var second := Handler(books, first.cache, Some(id2), Some(language), translate, Completes, Completes, cachePut);
            second.calls == [TranslateRequest(Field(books[NumberOf(id2).value], "language"), language, "Hello ")]
  {
  }
}
