/**
 * `FPLClient`: the entry id, set by authentication, and the player map,
 * built once at construction. Each HTTP request the source makes is replaced
 * by the response it receives, passed in as a parameter.
 */
module Client {
  import opened Wrappers
  import opened Json
  import opened Api
  import opened PlayerMap
  import opened Auth
  import opened Lineup

  class FplClient {
    /** `self.entry_id`: `JNull` until authentication stores `player['entry']`. */
    var entryId: Json
    /** `self.player_map`: element id -> web_name. */
    var playerMap: map<int, string>

    /** The state `__init__` leaves once the player map has been built. */
    constructor (playerMap: map<int, string>)
      ensures entryId == JNull && this.playerMap == playerMap
    {
      entryId := JNull;
      this.playerMap := playerMap;
    }

    /**
     * `FPLClient()`: builds the player map from the bootstrap response, and
     * fails, creating no client, when that does.
     */
    static method Create(bootstrap: Response) returns (r: Result<FplClient, Error>)
      ensures r.Success? <==> PlayerIdMap(bootstrap).Success?
      ensures r.Failure? ==> r.error == PlayerIdMap(bootstrap).error
      ensures r.Success? ==>
        && fresh(r.value)
        && r.value.entryId == JNull
        && r.value.playerMap == PlayerIdMap(bootstrap).value
    {
      match PlayerIdMap(bootstrap)
      case Failure(e) =>
        r := Failure(e);
      case Success(m) =>
        var c := new FplClient(m);
        r := Success(c);
    }

    /**
     * `set_auth_cookie`, given the /api/me/ response: on success the entry id
     * is `player['entry']` and is returned; on failure the entry id is as it
     * was. The player map never changes.
     */
    method SetAuthCookie(me: Response) returns (r: Result<Json, Error>)
      modifies this`entryId
      ensures r == Authenticate(me)
      ensures entryId == if r.Success? then r.value else old(entryId)
      ensures playerMap == old(playerMap)
    {
      r := Authenticate(me);
      if r.Success? {
        entryId := r.value;
      }
    }

    /**
     * `get_team_for_gameweek`, given the picks response. It changes nothing
     * (no modifies clause), so neither the entry id nor the player map moves.
     */
    method GetTeamForGameweek(picks: Response) returns (r: Result<seq<Starter>, Error>)
      ensures r == Team(entryId, playerMap, picks)
      ensures !Truthy(entryId) ==> r == Failure(NotAuthenticated)
    {
      r := Team(entryId, playerMap, picks);
    }
  }

  /**
   * A /api/me/ body whose entry is falsy (0, null, "", [], {} or false)
   * authenticates, yet the client still refuses to fetch a team: the guard is
   * a truthiness test, not a test for `None`.
   */
  lemma FalsyEntryIsRefused(entry: Json, playerMap: map<int, string>, picks: Response)
    requires !Truthy(entry)
    ensures
      var me := Response(200, Some(JObj(map["player" := JObj(map["entry" := entry])])));
      && Authenticate(me) == Success(entry)
      && Team(entry, playerMap, picks) == Failure(NotAuthenticated)
  {
  }
}
