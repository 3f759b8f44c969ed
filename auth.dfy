/**
 * The checks `FPLClient.set_auth_cookie` makes on the /api/me/ response
 * before it stores the entry id.
 */
module Auth {
  import opened Wrappers
  import opened Json
  import opened Api

  /**
   * `if not player_info or 'entry' not in player_info` and then
   * `player_info['entry']`, for every shape `player_info` can have.
   * A truthy string or list that contains 'entry' passes the test, but
   * subscripting it with 'entry' raises; `in` on a truthy number or boolean
   * raises.
   */
  function PlayerEntry(info: Json): (r: Result<Json, Error>)
    ensures r.Success? <==> info.JObj? && "entry" in info.fields
    ensures r.Success? ==> r.value == info.fields["entry"]
    ensures !Truthy(info) ==> r == Failure(NoEntryId)
    ensures Truthy(info) && info.JStr? ==>
      r == if IsSubstring("entry", info.s) then Failure(Malformed) else Failure(NoEntryId)
    ensures Truthy(info) && info.JArr? ==>
      r == if JStr("entry") in info.items then Failure(Malformed) else Failure(NoEntryId)
    ensures Truthy(info) && (info.JNum? || info.JBool?) ==> r == Failure(Malformed)
  {
    if !Truthy(info) then Failure(NoEntryId)
    else match info
      case JObj(f) => if "entry" in f then Success(f["entry"]) else Failure(NoEntryId)
      case JStr(s) => if IsSubstring("entry", s) then Failure(Malformed) else Failure(NoEntryId)
      case JArr(items) => if JStr("entry") in items then Failure(Malformed) else Failure(NoEntryId)
      case _ => Failure(Malformed)
  }

  /**
   * A truthy string or list value of `player` for which `'entry' in player`
   * is false, so the source raises its "No entry ID" exception.
   */
  predicate PlayerEntryMissing(info: Json) {
    || (info.JStr? && !IsSubstring("entry", info.s))
    || (info.JArr? && JStr("entry") !in info.items)
  }

  /** The `player` member of a /api/me/ body, when the body is an object that has one. */
  predicate HasPlayerEntry(body: Json) {
    && body.JObj?
    && "player" in body.fields
    && body.fields["player"].JObj?
    && "entry" in body.fields["player"].fields
  }

  /**
   * The outcome of `set_auth_cookie` for the /api/me/ response `me`: the
   * entry id it stores and returns, or the failure it raises.
   */
  function Authenticate(me: Response): (r: Result<Json, Error>)
    ensures me.status != 200 ==> r == Failure(AuthFailed)
    ensures r.Success? <==> me.status == 200 && me.body.Some? && HasPlayerEntry(me.body.value)
    ensures r.Success? ==> r.value == me.body.value.fields["player"].fields["entry"]
    ensures me.status == 200 && (me.body.None? || !me.body.value.JObj?) ==> r == Failure(Malformed)
    // no 'player' member, a null or otherwise falsy one, or an object without 'entry'
    ensures me.status == 200 && me.body.Some? && me.body.value.JObj? ==>
      var f := me.body.value.fields;
      ("player" !in f || !Truthy(f["player"]) || (f["player"].JObj? && "entry" !in f["player"].fields))
      ==> r == Failure(NoEntryId)
    // a truthy `player` that is not an object: NoEntryId unless `'entry' in`
    // holds and the subscript raises, or `in` itself raises
    ensures
      (&& me.status == 200 && me.body.Some? && me.body.value.JObj?
       && "player" in me.body.value.fields
       && Truthy(me.body.value.fields["player"])
       && !me.body.value.fields["player"].JObj?)
      ==>
      (&& r.Failure?
       && (r.error == NoEntryId <==> PlayerEntryMissing(me.body.value.fields["player"]))
       && (r.error != NoEntryId ==> r.error == Malformed))
  {
    if me.status != 200 then Failure(AuthFailed)
    else match me.body
      case None => Failure(Malformed)
      case Some(JObj(f)) => PlayerEntry(Get(f, "player", JNull))
      case Some(_) => Failure(Malformed)
  }
}
