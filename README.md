# FPL captain agent: the FPL API client, modelled in Dafny

This project models `FPLClient`, the client of the Fantasy Premier League API
in `fpl.py`. The client holds two pieces of state:

- the account's **entry id**. It starts as Python `None`. `set_auth_cookie`
  sets it once the `/api/me/` response has status 200 and its JSON `player`
  object has an `entry` member.
- the **player map** (element id -> `web_name`). The constructor builds it
  from the bootstrap `elements` list.

`get_team_for_gameweek` combines the two. It refuses to run unless the entry
id is truthy and fails on a non-200 picks status. Otherwise it keeps the picks
whose `position` is at most 11, in order. Each kept pick becomes a record of
its element id, its resolved name and its two captaincy flags. A name missing
from the map becomes `"Player <id>"`.

Each HTTP exchange is modelled as the response it returns: a status code plus
the body parsed as JSON (`None` when it does not parse). JSON values are a
datatype (`Json.Json`), and Python truthiness is modelled exactly
(`Json.Truthy`). So an entry id of `0`, `""` or `null` counts as
unauthenticated, the same as `None`. Every exception the client raises is an
`Api.Error` value. The Python `TypeError`/`KeyError`/`AttributeError` that an
unexpected body shape would cause is `Malformed`.

Files, one module each:

- `wrappers.dfy`: `Option`, `Result`.
- `json.dfy`: JSON values, truthiness, `dict.get`, iteration, `str in str`.
- `decimal.dfy`: Python `str(int)` and its inverse.
- `api.dfy`: responses and the client's errors with their messages.
- `auth.dfy`: the `/api/me/` checks of `set_auth_cookie`.
- `player_map.dfy`: `_get_player_id_map`.
- `lineup.dfy`: `get_team_for_gameweek` after the request.
- `client.dfy`: the `FplClient` class.

Two observations about the code, both stated as contracts:

- Authentication can succeed with any falsy entry (`0`, `null`, `""`, `[]`,
  `{}` or `false`), and the client then still refuses to fetch a team
  (`Client.FalsyEntryIsRefused`).
- A bench pick with no `element` key does not break the request. The filter
  reads only `position`, and the record fields are read only for the picks
  it keeps (`Lineup.TeamSucceedsIff`).

## Model

| member | source | states |
|---|---|---|
| `Client.FplClient.constructor` | fpl.py:11-16 | a new client has entry id `None` (`JNull`) and the given player map |
| `Client.FplClient.Create` | fpl.py:11-16 | construction succeeds exactly when the bootstrap map can be built; the new client is unauthenticated and holds that map; otherwise the bootstrap error is returned and no client exists |
| `Client.FplClient.SetAuthCookie` | fpl.py:18-39 | the result is the `/api/me/` outcome; on success the entry id becomes `player['entry']`, the same value returned; on failure the entry id is unchanged; the player map never changes |
| `Client.FplClient.GetTeamForGameweek` | fpl.py:41-65 | the result is the lineup outcome for the current state; the method modifies nothing, so entry id and player map stay as they are; with a falsy entry id it fails with "Must authenticate first." |
| `Auth.Authenticate` | fpl.py:25-39 | a non-200 status fails with AuthFailed; success exactly when the status is 200 and the body has a `player` object with an `entry` member, and the value is that entry; no `player`, a falsy `player`, or a `player` object without `entry` fails with NoEntryId; a truthy `player` that is not an object fails with NoEntryId exactly when it is a string or list for which `'entry' in` is false, and as malformed otherwise; a body that is not a JSON object fails as malformed |
| `Auth.PlayerEntry` | fpl.py:31-37 | the entry is found exactly when `player` is an object with `entry`, and is that member; a falsy `player` fails with NoEntryId; a string or list fails as malformed when it contains 'entry' (the subscript raises) and with NoEntryId otherwise; a truthy number or boolean fails as malformed (`in` raises) |
| `Lineup.Team` | fpl.py:41-53 | a falsy entry id fails with NotAuthenticated whatever the response, so the response plays no part; an authenticated non-200 status fails with TeamFetchFailed; an unparseable body, or `picks` that cannot be iterated, is malformed |
| `Lineup.TeamSucceedsIff` | fpl.py:53-65 | with a 200 response, the request succeeds if and only if every pick has an integer position and every starter (position <= 11) has `element`, `is_captain` and `is_vice_captain`; bench picks need only a position |
| `Lineup.TeamListsStartersInOrder` | fpl.py:53-65 | a successful result has exactly one record per pick with position <= 11, in pick order; record k was made from the k-th such pick: its id is the pick's element, its name is the resolved name of that id, its flags are the pick's flags |
| `Lineup.MissingPicksMeansEmpty` | fpl.py:53 | a body without `picks` yields the empty lineup |
| `Lineup.Picks` | fpl.py:53 | a body that is not an object fails; without `picks` the list is empty; a `picks` list is iterated as it is |
| `Lineup.FilterStarters` | fpl.py:54 | a failure is always malformed; a kept list is no longer than the picks and every kept pick has position <= 11 |
| `Lineup.Describe` | fpl.py:57-63 | a record is built exactly when the pick has `element` (an integer), `is_captain` and `is_vice_captain`; it copies id and flags and carries the resolved name; otherwise malformed |
| `Lineup.DescribeAll` | fpl.py:57-65 | a failure is always malformed; a result has one record per kept pick |
| `Lineup.Name` | fpl.py:60 | a known element gets `player_map[element]`; an unknown one gets "Player " followed by a canonical decimal numeral |
| `Lineup.FilterStartersKeepsStarters` | fpl.py:54 | the filter fails exactly when some pick lacks an integer position; otherwise it keeps the picks at the starter positions, in order |
| `Lineup.StarterIndicesIndexesStarters` | fpl.py:54 | the starter positions are strictly increasing, in range, and contain index i exactly when pick i has position <= 11 |
| `Lineup.StartersDescribable` | fpl.py:54-65 | after the filter, building the records succeeds exactly when every starter has the three keys the record reads |
| `Lineup.DescribeAllDescribes` | fpl.py:57-65 | building the records succeeds exactly when every kept pick has the keys, and then record k copies id and flags from kept pick k and resolves its name |
| `Lineup.NameResolves` | fpl.py:60 | a known element gets `player_map[element]`; an unknown one gets "Player " followed by a canonical numeral (no leading zero, no "-0") that reads back as the element id, which by `Decimal.CanonicalDecimalIsStr` is exactly `str(element)` |
| `Lineup.FallbackNamesDistinct` | fpl.py:60 | two different unknown elements never get the same fallback name |
| `Client.FalsyEntryIsRefused` | fpl.py:33-44 | an `/api/me/` entry that is falsy (0, null, "", [], {}, false) authenticates and is the returned id, and the team request then still fails with "Must authenticate first." |
| `PlayerMap.PlayerIdMap` | fpl.py:67-77 | a non-200 bootstrap status fails with BootstrapFetchFailed; a malformed body fails; otherwise the map's keys are exactly the element ids, each id maps to the `web_name` of its last occurrence, and the map has at most as many entries as the list |
| `PlayerMap.Elements` | fpl.py:74-75 | a body that is not an object, or has no `elements`, fails; an `elements` list is decoded item by item |
| `PlayerMap.BuildMap` | fpl.py:75 | every element id is a key; the last element's id maps to its name |
| `PlayerMap.BuildMapKeys` | fpl.py:75 | an id is a key of the map exactly when some element carries it |
| `PlayerMap.BuildMapLastWins` | fpl.py:75 | when ids repeat, the last element with an id supplies its name |
| `PlayerMap.BuildMapSize` | fpl.py:75 | the map has at most as many entries as there are elements |
| `PlayerMap.DecodeElements` | fpl.py:75 | decoding the elements succeeds exactly when each one has an integer `id` and a string `web_name`, and keeps them in order |
| `Json.Iterate` | fpl.py:53-54 | a list is iterated item by item; only the empty string or empty dict also iterate cleanly (to nothing); everything else raises before a pick is read |
| `Json.Truthy` | fpl.py:33 | a JSON value is falsy exactly when it is one of null, false, 0, "", [] and {} |
| `Api.Message` | fpl.py:28 | every failure carries a non-empty message; the five the source raises are its texts (fpl.py:28, 35, 44, 51, 72) |
| `Api.MessagesDistinct` | fpl.py:28-72 | different failures carry different messages |
| `Decimal.NatToDecimal` | fpl.py:60 | `str` of a natural number is non-empty digits without a leading zero, and is "0" only for 0 |
| `Decimal.IntToDecimal` | fpl.py:60 | `str(n)` is a canonical numeral, with a '-' exactly when n is negative |
| `Decimal.CanonicalNatIsItsText` | fpl.py:60 | digits without a leading zero are the text of their own value |
| `Decimal.CanonicalDecimalIsStr` | fpl.py:60 | a canonical numeral is `str` of the integer it reads as, so `str` gives the only canonical numeral for each integer |
| `Decimal.NatRoundTrip` | fpl.py:60 | the decimal text of a natural number reads back as that number |
| `Decimal.IntRoundTrip` | fpl.py:60 | `str(n)` of any integer, sign included, reads back as `n` |
| `Decimal.IntToDecimalInjective` | fpl.py:60 | different integers have different decimal texts |

## Left out

- The HTTP layer is not modelled: `requests.Session`, `requests.get`, and the `Cookie` and `User-Agent` headers set on the session (fpl.py:13, 20-25, 48, 69). Each request is replaced by the response it returns. So `SetAuthCookie` takes no cookie.
- URL formatting (fpl.py:6-8, 47) is not modelled. So `GetTeamForGameweek` takes no gameweek, because the gameweek only reaches the URL.
- Logging calls are not modelled: they have no effect on behaviour.
- JSON numbers are integers only. Floating-point values are not modelled.
- `Lineup.Team`: the model is stricter than Python on value types. It asks for JSON integers for `position` and `element`. Python also accepts a boolean `position`, compared as 0/1. It accepts a boolean `element` too: the map lookup treats it as 0/1, and the fallback name is "Player True" or "Player False". A string or null `element` gets "Player <value>".
- `PlayerMap.PlayerIdMap`: the bootstrap `id` must be a JSON integer and `web_name` a string. Python stores any hashable id and any name value.
- All shape failures are one `Malformed` error. Python raises different exception types with different texts for them.
- `captain_picker.py` returns a constant list and ignores its inputs, so there is no logic to model. `app.py` is Flask routing.
- The player scorer, the captain ranker and the LLM narrator are not modelled. They appear in no source file of this repository.

