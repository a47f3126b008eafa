/** How the handlers turn the `bookId` path parameter into a Books key. */
module BookIds {
  import opened Wrappers
  import opened JsNumbers

  /** The guard shared by the get-by-id and update handlers:
      `bookId = param ? parseInt(param, 10) : undefined`, rejected when
      `!bookId || isNaN(bookId)`. An absent or empty parameter, `NaN` and 0
      are all rejected; any other parsed integer is the key. */
  function PathId(param: Option<string>): (id: Option<int>)
    ensures id.Some? <==> param.Some? && param.value != "" && ParseInt(param.value).Finite?
                          && ParseInt(param.value).value != 0
    ensures id.Some? ==> ParseInt(param.value) == Finite(id.value)
  {
    match param
    case None => None
    case Some(s) =>
      if s == "" then None
      else
        match ParseInt(s)
        case NaN => None
        case Finite(n) => if n == 0 then None else Some(n)
  }

  /** Every non-zero key is reachable: the path `${id}`, followed by any text
      that does not start with a digit, selects it. */
  lemma PathIdShowInt(id: int, rest: string)
    requires id != 0
    requires rest == [] || !IsDigit(rest[0])
    ensures PathId(Some(ShowInt(id) + rest)) == Some(id)
  {
    ParseIntShowInt(id, rest);
    assert |ShowInt(id) + rest| > 0 by {
      ShowNatDigits(if id < 0 then -id else id);
    }
  }
}
