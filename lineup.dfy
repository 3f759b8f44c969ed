/**
 * The starting-eleven transform of `FPLClient.get_team_for_gameweek`:
 * the guard on the entry id, the status check, the filter to positions
 * 1..11 and the resolution of each kept pick's name.
 */
module Lineup {
  import opened Wrappers
  import opened Json
  import opened Decimal
  import opened Api

  /** One entry of the returned list. The two flags are copied from the pick as they are. */
  datatype Starter = Starter(id: int, name: string, isCaptain: Json, isViceCaptain: Json)

  /** `p['position']`, when `p` is an object whose position is an integer. */
  function Position(p: Json): Option<int> {
    match p
    case JObj(f) => if "position" in f && f["position"].JNum? then Some(f["position"].n) else None
    case _ => None
  }

  /** The filter of the `starting_11` comprehension. */
  predicate IsStarter(p: Json) {
    Position(p).Some? && Position(p).value <= 11
  }

  /** `[p for p in picks if p['position'] <= 11]`; a pick without an integer position raises. */
  function FilterStarters(ps: seq<Json>): (r: Result<seq<Json>, Error>)
    ensures r.Failure? ==> r.error == Malformed
    ensures r.Success? ==> |r.value| <= |ps| && forall k :: 0 <= k < |r.value| ==> IsStarter(r.value[k])
  {
    if ps == [] then Success([])
    else match Position(ps[0])
      case None => Failure(Malformed)
      case Some(n) =>
        var rest :- FilterStarters(ps[1..]);
        Success(if n <= 11 then [ps[0]] + rest else rest)
  }

  /** `player_map.get(element, f"Player {element}")`. */
  function Name(playerMap: map<int, string>, element: int): (name: string)
    ensures element in playerMap ==> name == playerMap[element]
    ensures element !in playerMap ==> |name| > 7 && name[..7] == "Player " && IsCanonicalDecimal(name[7..])
  {
    if element in playerMap then playerMap[element] else "Player " + IntToDecimal(element)
  }

  /** A kept pick has the keys the output record reads. */
  predicate Describable(p: Json) {
    && p.JObj?
    && "element" in p.fields && p.fields["element"].JNum?
    && "is_captain" in p.fields
    && "is_vice_captain" in p.fields
  }

  /** The output record for one kept pick. */
  function Describe(p: Json, playerMap: map<int, string>): (r: Result<Starter, Error>)
    ensures r.Success? <==> Describable(p)
    ensures r.Failure? ==> r.error == Malformed
    ensures r.Success? ==> Describes(r.value, p, playerMap)
  {
    if Describable(p) then
      var id := p.fields["element"].n;
      Success(Starter(id, Name(playerMap, id), p.fields["is_captain"], p.fields["is_vice_captain"]))
    else Failure(Malformed)
  }

  function DescribeAll(ps: seq<Json>, playerMap: map<int, string>): (r: Result<seq<Starter>, Error>)
    ensures r.Failure? ==> r.error == Malformed
    ensures r.Success? ==> |r.value| == |ps|
  {
    if ps == [] then Success([])
    else
      var s :- Describe(ps[0], playerMap);
      var rest :- DescribeAll(ps[1..], playerMap);
      Success([s] + rest)
  }

  /** `team_response.json().get("picks", [])`, iterated. */
  function Picks(body: Json): (r: Option<seq<Json>>)
    ensures !body.JObj? ==> r.None?
    ensures body.JObj? && "picks" !in body.fields ==> r == Some([])
    ensures body.JObj? && "picks" in body.fields && body.fields["picks"].JArr? ==>
      r == Some(body.fields["picks"].items)
  {
    match body
    case JObj(f) => Iterate(Get(f, "picks", JArr([])))
    case _ => None
  }

  /**
   * The outcome of `get_team_for_gameweek` for a client whose entry id is
   * `entryId` and whose player map is `playerMap`, when the picks request
   * answers `resp`.
   */
  function Team(entryId: Json, playerMap: map<int, string>, resp: Response): (r: Result<seq<Starter>, Error>)
    // the guard comes first: without a truthy entry id the response plays no part
    ensures !Truthy(entryId) ==> r == Failure(NotAuthenticated)
    ensures Truthy(entryId) && resp.status != 200 ==> r == Failure(TeamFetchFailed)
    ensures Truthy(entryId) && resp.status == 200 && (resp.body.None? || Picks(resp.body.value).None?) ==>
      r == Failure(Malformed)
  {
    if !Truthy(entryId) then Failure(NotAuthenticated)
    else if resp.status != 200 then Failure(TeamFetchFailed)
    else match resp.body
      case None => Failure(Malformed)
      case Some(body) =>
        match Picks(body)
        case None => Failure(Malformed)
        case Some(ps) =>
          var kept :- FilterStarters(ps);
          DescribeAll(kept, playerMap)
  }

  // ----- what the transform promises -----

  ghost predicate Increasing(idx: seq<nat>) {
    forall k, l :: 0 <= k < l < |idx| ==> idx[k] < idx[l]
  }

  /** `idx` lists, in increasing order, exactly the positions of the starters in `ps`. */
  ghost predicate IndexesStarters(ps: seq<Json>, idx: seq<nat>) {
    && Increasing(idx)
    && (forall k :: 0 <= k < |idx| ==> idx[k] < |ps|)
    && (forall i :: 0 <= i < |ps| ==> (i in idx <==> IsStarter(ps[i])))
  }

  /** The output record `s` was made from pick `p`. */
  ghost predicate Describes(s: Starter, p: Json, playerMap: map<int, string>) {
    && p.JObj?
    && "element" in p.fields && p.fields["element"] == JNum(s.id)
    && s.name == Name(playerMap, s.id)
    && "is_captain" in p.fields && s.isCaptain == p.fields["is_captain"]
    && "is_vice_captain" in p.fields && s.isViceCaptain == p.fields["is_vice_captain"]
  }

  /** With the guard and the status check passed, the result is the pipeline over the picks. */
  lemma TeamOfPicks(entryId: Json, playerMap: map<int, string>, resp: Response, ps: seq<Json>)
    requires Truthy(entryId) && resp.status == 200 && resp.body.Some? && Picks(resp.body.value) == Some(ps)
    ensures Team(entryId, playerMap, resp).Success? <==>
      FilterStarters(ps).Success? && DescribeAll(FilterStarters(ps).value, playerMap).Success?
    ensures Team(entryId, playerMap, resp).Success? ==>
      Team(entryId, playerMap, resp) == DescribeAll(FilterStarters(ps).value, playerMap)
  {
  }

  /** The positions, in `ps`, of its starters. */
  function StarterIndices(ps: seq<Json>): (idx: seq<nat>)
    ensures forall k :: 0 <= k < |idx| ==> idx[k] < |ps|
  {
    if ps == [] then []
    else
      var tail := StarterIndices(ps[1..]);
      var shifted := seq(|tail|, k requires 0 <= k < |tail| => tail[k] + 1);
      if IsStarter(ps[0]) then [0] + shifted else shifted
  }

  lemma {:induction false} StarterIndicesIndexesStarters(ps: seq<Json>)
    ensures IndexesStarters(ps, StarterIndices(ps))
  {
    if ps != [] {
      var tail := StarterIndices(ps[1..]);
      StarterIndicesIndexesStarters(ps[1..]);
      var shifted := seq(|tail|, k requires 0 <= k < |tail| => tail[k] + 1);
      var idx := StarterIndices(ps);
      assert idx == if IsStarter(ps[0]) then [0] + shifted else shifted;
      forall i | 0 <= i < |ps| ensures i in idx <==> IsStarter(ps[i]) {
        if i == 0 {
          assert 0 !in shifted;
        } else {
          assert ps[i] == ps[1..][i - 1];
          if i - 1 in tail {
            var k :| 0 <= k < |tail| && tail[k] == i - 1;
            assert shifted[k] == i;
          }
          if i in shifted {
            var k :| 0 <= k < |shifted| && shifted[k] == i;
            assert tail[k] == i - 1;
          }
        }
      }
    }
  }

  /**
   * The filter fails exactly when some pick lacks an integer position, and
   * otherwise keeps the starters, in their order.
   */
  lemma {:induction false} FilterStartersKeepsStarters(ps: seq<Json>)
    ensures FilterStarters(ps).Success? <==> forall i :: 0 <= i < |ps| ==> Position(ps[i]).Some?
    ensures FilterStarters(ps).Success? ==>
      var kept := FilterStarters(ps).value;
      var idx := StarterIndices(ps);
      |kept| == |idx| && forall k :: 0 <= k < |idx| ==> kept[k] == ps[idx[k]]
  {
    if ps != [] {
      FilterStartersKeepsStarters(ps[1..]);
      if FilterStarters(ps).Success? {
        assert Position(ps[0]).Some?;
        var kept := FilterStarters(ps).value;
        var rest := FilterStarters(ps[1..]).value;
        var tail := StarterIndices(ps[1..]);
        var idx := StarterIndices(ps);
        forall k | 0 <= k < |idx| ensures kept[k] == ps[idx[k]] {
          if IsStarter(ps[0]) {
            if k > 0 {
              assert kept[k] == rest[k - 1] == ps[1..][tail[k - 1]];
            }
          } else {
            assert kept[k] == rest[k] == ps[1..][tail[k]];
          }
        }
      } else if Position(ps[0]).Some? {
        assert FilterStarters(ps[1..]).Failure?;
      }
      assert forall i :: 1 <= i < |ps| ==> ps[i] == ps[1..][i - 1];
    }
  }

  /** Describing fails exactly when some kept pick lacks a key, and otherwise maps pick to record. */
  lemma {:induction false} DescribeAllDescribes(ps: seq<Json>, playerMap: map<int, string>)
    ensures DescribeAll(ps, playerMap).Success? <==> forall k :: 0 <= k < |ps| ==> Describable(ps[k])
    ensures DescribeAll(ps, playerMap).Success? ==>
      var out := DescribeAll(ps, playerMap).value;
      |out| == |ps| && forall k :: 0 <= k < |ps| ==> Describes(out[k], ps[k], playerMap)
  {
    if ps != [] {
      DescribeAllDescribes(ps[1..], playerMap);
      assert forall k :: 1 <= k < |ps| ==> ps[k] == ps[1..][k - 1];
    }
  }

  /**
   * An authenticated request with a 200 response succeeds exactly when every
   * pick has an integer position and every starter has its element id and
   * both flags; bench picks need nothing but their position.
   */
  lemma TeamSucceedsIff(entryId: Json, playerMap: map<int, string>, resp: Response, ps: seq<Json>)
    requires Truthy(entryId) && resp.status == 200 && resp.body.Some? && Picks(resp.body.value) == Some(ps)
    ensures Team(entryId, playerMap, resp).Success? <==>
      && (forall i :: 0 <= i < |ps| ==> Position(ps[i]).Some?)
      && (forall i :: 0 <= i < |ps| && IsStarter(ps[i]) ==> Describable(ps[i]))
  {
    TeamOfPicks(entryId, playerMap, resp, ps);
    FilterStartersKeepsStarters(ps);
    if FilterStarters(ps).Success? {
      StartersDescribable(ps, playerMap);
    }
  }

  lemma {:induction false} StartersDescribable(ps: seq<Json>, playerMap: map<int, string>)
    requires FilterStarters(ps).Success?
    ensures DescribeAll(FilterStarters(ps).value, playerMap).Success? <==>
      forall i :: 0 <= i < |ps| && IsStarter(ps[i]) ==> Describable(ps[i])
  {
    FilterStartersKeepsStarters(ps);
    StarterIndicesIndexesStarters(ps);
    var idx := StarterIndices(ps);
    var kept := FilterStarters(ps).value;
    DescribeAllDescribes(kept, playerMap);
    if forall k :: 0 <= k < |kept| ==> Describable(kept[k]) {
      forall i | 0 <= i < |ps| && IsStarter(ps[i]) ensures Describable(ps[i]) {
        var k :| 0 <= k < |idx| && idx[k] == i;
        assert kept[k] == ps[i];
      }
    } else {
      var k :| 0 <= k < |kept| && !Describable(kept[k]);
      assert idx[k] in idx;
      assert IsStarter(ps[idx[k]]);
    }
  }

  /**
   * A successful result has one record per starter, in pick order: the k-th
   * record was made from the k-th pick whose position is at most 11.
   */
  lemma TeamListsStartersInOrder(entryId: Json, playerMap: map<int, string>, resp: Response, ps: seq<Json>)
    requires Truthy(entryId) && resp.status == 200 && resp.body.Some? && Picks(resp.body.value) == Some(ps)
    requires Team(entryId, playerMap, resp).Success?
    ensures
      var out := Team(entryId, playerMap, resp).value;
      var idx := StarterIndices(ps);
      && IndexesStarters(ps, idx)
      && |out| == |idx|
      && forall k :: 0 <= k < |out| ==> Describes(out[k], ps[idx[k]], playerMap)
  {
    TeamOfPicks(entryId, playerMap, resp, ps);
    FilterStartersKeepsStarters(ps);
    StarterIndicesIndexesStarters(ps);
    DescribeAllDescribes(FilterStarters(ps).value, playerMap);
  }

  /** A picks body without a `picks` member yields the empty lineup. */
  lemma MissingPicksMeansEmpty(entryId: Json, playerMap: map<int, string>, resp: Response)
    requires Truthy(entryId) && resp.status == 200 && resp.body.Some? && resp.body.value.JObj?
    requires "picks" !in resp.body.value.fields
    ensures Team(entryId, playerMap, resp) == Success([])
  {
  }

  /**
   * A known element gets its web_name; an unknown one gets "Player " followed
   * by the decimal text of its id, from which the id can be read back.
   */
  lemma NameResolves(playerMap: map<int, string>, element: int)
    ensures element in playerMap ==> Name(playerMap, element) == playerMap[element]
    ensures element !in playerMap ==>
      var name := Name(playerMap, element);
      && |name| > 7
      && name[..7] == "Player "
      && IsCanonicalDecimal(name[7..])
      && DecimalToInt(name[7..]) == element
  {
    if element !in playerMap {
      var name := Name(playerMap, element);
      assert name[7..] == IntToDecimal(element);
      IntRoundTrip(element);
    }
  }

  /** Two unknown elements never share a fallback name. */
  lemma FallbackNamesDistinct(playerMap: map<int, string>, a: int, b: int)
    requires a != b && a !in playerMap && b !in playerMap
    ensures Name(playerMap, a) != Name(playerMap, b)
  {
    NameResolves(playerMap, a);
    NameResolves(playerMap, b);
  }
}
