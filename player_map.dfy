/**
 * The id -> web_name map built from the bootstrap data
 * (`FPLClient._get_player_id_map`).
 */
module PlayerMap {
  import opened Wrappers
  import opened Json
  import opened Api

  /** One entry of the bootstrap `elements` list, as far as the map uses it. */
  datatype Element = Element(id: int, webName: string)

  /** `p['id']` and `p['web_name']` of one element. */
  function DecodeElement(v: Json): Option<Element> {
    match v
    case JObj(f) =>
      if "id" in f && f["id"].JNum? && "web_name" in f && f["web_name"].JStr?
      then Some(Element(f["id"].n, f["web_name"].s))
      else None
    case _ => None
  }

  function DecodeElements(vs: seq<Json>): (r: Option<seq<Element>>)
    ensures r.Some? <==> forall i :: 0 <= i < |vs| ==> DecodeElement(vs[i]).Some?
    ensures r.Some? ==>
      && |r.value| == |vs|
      && forall i :: 0 <= i < |vs| ==> DecodeElement(vs[i]) == Some(r.value[i])
  {
    if vs == [] then Some([])
    else match (DecodeElement(vs[0]), DecodeElements(vs[1..]))
      case (Some(e), Some(rest)) => Some([e] + rest)
      case _ => None
  }

  /** The decoded `data['elements']` of a bootstrap body. */
  function Elements(body: Json): (r: Option<seq<Element>>)
    ensures !body.JObj? || "elements" !in body.fields ==> r.None?
    ensures body.JObj? && "elements" in body.fields && body.fields["elements"].JArr? ==>
      r == DecodeElements(body.fields["elements"].items)
  {
    match body
    case JObj(f) =>
      if "elements" !in f then None
      else (match Iterate(f["elements"])
        case Some(vs) => DecodeElements(vs)
        case None => None)
    case _ => None
  }

  /** `{p['id']: p['web_name'] for p in elements}`: later entries overwrite earlier ones. */
  function BuildMap(es: seq<Element>): (m: map<int, string>)
    ensures forall i :: 0 <= i < |es| ==> es[i].id in m
    ensures es != [] ==> m[es[|es| - 1].id] == es[|es| - 1].webName
    decreases |es|
  {
    if es == [] then map[]
    else BuildMap(es[..|es| - 1])[es[|es| - 1].id := es[|es| - 1].webName]
  }

  /** `i` is the last position of `es` that carries the id `es[i].id`. */
  ghost predicate IsLastWithId(es: seq<Element>, i: int)
    requires 0 <= i < |es|
  {
    forall j :: i < j < |es| ==> es[j].id != es[i].id
  }

  /**
   * What the dict comprehension promises: its keys are the ids of the list,
   * each id is sent to the name of its last occurrence, and it has no more
   * entries than the list.
   */
  ghost predicate IsPlayerMapOf(m: map<int, string>, es: seq<Element>) {
    && (forall id :: id in m <==> exists i :: 0 <= i < |es| && es[i].id == id)
    && (forall i :: 0 <= i < |es| && IsLastWithId(es, i) ==> es[i].id in m && m[es[i].id] == es[i].webName)
    && |m| <= |es|
  }

  lemma {:induction false} BuildMapKeys(es: seq<Element>)
    ensures forall id :: id in BuildMap(es) <==> exists i :: 0 <= i < |es| && es[i].id == id
    decreases |es|
  {
    if es != [] {
      var init := es[..|es| - 1];
      BuildMapKeys(init);
      forall id ensures id in BuildMap(es) <==> exists i :: 0 <= i < |es| && es[i].id == id {
        if id in BuildMap(es) && id != es[|es| - 1].id {
          assert id in BuildMap(init);
          var i :| 0 <= i < |init| && init[i].id == id;
          assert es[i].id == id;
        }
        if id != es[|es| - 1].id && exists i :: 0 <= i < |es| && es[i].id == id {
          var i :| 0 <= i < |es| && es[i].id == id;
          assert init[i].id == id;
        }
      }
    }
  }

  lemma {:induction false} BuildMapLastWins(es: seq<Element>)
    ensures forall i :: 0 <= i < |es| && IsLastWithId(es, i) ==>
      es[i].id in BuildMap(es) && BuildMap(es)[es[i].id] == es[i].webName
    decreases |es|
  {
    if es != [] {
      var init := es[..|es| - 1];
      BuildMapLastWins(init);
      forall i | 0 <= i < |es| && IsLastWithId(es, i)
        ensures es[i].id in BuildMap(es) && BuildMap(es)[es[i].id] == es[i].webName
      {
        if i < |init| {
          assert es[|es| - 1].id != es[i].id;
          assert IsLastWithId(init, i);
          assert init[i] == es[i];
        }
      }
    }
  }

  lemma {:induction false} BuildMapSize(es: seq<Element>)
    ensures |BuildMap(es)| <= |es|
    decreases |es|
  {
    if es != [] {
      var init := es[..|es| - 1];
      BuildMapSize(init);
      var m := BuildMap(init);
      var e := es[|es| - 1];
      assert m[e.id := e.webName].Keys == m.Keys + {e.id};
      assert |m.Keys + {e.id}| <= |m.Keys| + 1;
    }
  }

  /**
   * `_get_player_id_map` on the bootstrap response: a non-200 status fails,
   * a body of the wrong shape fails, and otherwise the result is the id ->
   * web_name map of the elements.
   */
  function PlayerIdMap(resp: Response): (r: Result<map<int, string>, Error>)
    ensures resp.status != 200 ==> r == Failure(BootstrapFetchFailed)
    ensures resp.status == 200 && (resp.body.None? || Elements(resp.body.value).None?) ==>
      r == Failure(Malformed)
    ensures r.Success? <==> resp.status == 200 && resp.body.Some? && Elements(resp.body.value).Some?
    ensures r.Success? ==> IsPlayerMapOf(r.value, Elements(resp.body.value).value)
  {
    if resp.status != 200 then Failure(BootstrapFetchFailed)
    else match resp.body
      case None => Failure(Malformed)
      case Some(data) =>
        match Elements(data)
        case None => Failure(Malformed)
        case Some(es) =>
          BuildMapKeys(es);
          BuildMapLastWins(es);
          BuildMapSize(es);
          Success(BuildMap(es))
  }
}
