/**
 * The tag lookup client: turning tag names into tag ids with the server's
 * tag-search query (`get_tag_ids`). The server is the parameter `search`,
 * which gives the search response for a queried name.
 */
module TagLookup {
  import opened Wrappers

  /** One record of a search response. */
  datatype TagRecord = TagRecord(id: int, name: string)

  /** A `findTags` response: the reported match count and the records. */
  datatype SearchResponse = SearchResponse(count: int, tags: seq<TagRecord>)

  /**
   * Why a name could not be resolved: no record carries exactly that name
   * (the id stays "" and the integer conversion fails), or the response
   * claims one match but lists none (the first record does not exist).
   */
  datatype LookupError = NoExactMatch(name: string) | EmptyTagList(name: string)

  /** The scan for the first record whose name equals `name` exactly. */
  function FirstExactMatch(tags: seq<TagRecord>, name: string): (r: Option<int>)
    ensures r.Some? <==> exists i :: 0 <= i < |tags| && tags[i].name == name
    ensures r.Some? ==> exists i :: 0 <= i < |tags| && tags[i].name == name && tags[i].id == r.value
                                    && forall j :: 0 <= j < i ==> tags[j].name != name
  {
    if tags == [] then None
    else if tags[0].name == name then Some(tags[0].id)
    else
      var r := FirstExactMatch(tags[1..], name);
      assert forall i :: 1 <= i < |tags| ==> tags[i] == tags[1..][i - 1];
      assert r.Some? ==> exists i :: 1 <= i < |tags| && tags[i].name == name && tags[i].id == r.value
                                     && forall j :: 0 <= j < i ==> tags[j].name != name;
      r
  }

  /**
   * The id chosen from one search response: a single reported match is
   * taken whatever its name; otherwise the first exact, case-sensitive
   * name match, or an error when there is none.
   */
  function SelectTagId(resp: SearchResponse, name: string): (r: Result<int, LookupError>)
    ensures resp.count == 1 && |resp.tags| > 0 ==> r == Ok(resp.tags[0].id)
    ensures resp.count == 1 && |resp.tags| == 0 ==> r == Err(EmptyTagList(name))
    ensures resp.count != 1 ==>
              (r.Ok? <==> exists i :: 0 <= i < |resp.tags| && resp.tags[i].name == name)
    ensures resp.count != 1 && r.Ok? ==>
              exists i :: 0 <= i < |resp.tags| && resp.tags[i].name == name && resp.tags[i].id == r.value
                          && forall j :: 0 <= j < i ==> resp.tags[j].name != name
    ensures resp.count != 1 && r.Err? ==> r.error == NoExactMatch(name)
    ensures r.Err? ==> r.error.name == name
  {
    if resp.count == 1 then
      if |resp.tags| > 0 then Ok(resp.tags[0].id) else Err(EmptyTagList(name))
    else
      match FirstExactMatch(resp.tags, name)
      case Some(id) => Ok(id)
      case None => Err(NoExactMatch(name))
  }

  /** One round trip: query the server for `name` and select an id. */
  function Lookup(search: string -> SearchResponse, name: string): Result<int, LookupError>
  {
    SelectTagId(search(name), name)
  }

  /**
   * What `get_tag_ids` returns for `names`: each name is looked up in
   * order and `result[id] = name` is done, so a later name overwrites an
   * earlier one with the same id; the first name that cannot be resolved
   * aborts the whole resolution.
   */
  function ResolveNames(names: seq<string>, search: string -> SearchResponse): Result<map<int, string>, LookupError>
  {
    if names == [] then Ok(map[])
    else
      var last := names[|names| - 1];
      match ResolveNames(names[..|names| - 1], search)
      case Err(e) => Err(e)
      case Ok(m) =>
        match Lookup(search, last)
        case Err(e) => Err(e)
        case Ok(id) => Ok(m[id := last])
  }

  /** Resolution succeeds exactly when every name resolves on its own. */
  lemma {:induction false} ResolveNamesOkIff(names: seq<string>, search: string -> SearchResponse)
    ensures ResolveNames(names, search).Ok? <==> forall i :: 0 <= i < |names| ==> Lookup(search, names[i]).Ok?
  {
    if names != [] {
      var init := names[..|names| - 1];
      ResolveNamesOkIff(init, search);
      assert forall i :: 0 <= i < |init| ==> init[i] == names[i];
    }
  }

  /** A failed resolution reports the first name, in order, that does not resolve. */
  lemma {:induction false} ResolveNamesFirstError(names: seq<string>, search: string -> SearchResponse)
    requires ResolveNames(names, search).Err?
    ensures exists i :: 0 <= i < |names| && Lookup(search, names[i]) == Err(ResolveNames(names, search).error)
                        && forall j :: 0 <= j < i ==> Lookup(search, names[j]).Ok?
  {
    var init := names[..|names| - 1];
    assert forall i :: 0 <= i < |init| ==> init[i] == names[i];
    match ResolveNames(init, search)
    case Err(e) =>
      ResolveNamesFirstError(init, search);
    case Ok(_) =>
      ResolveNamesOkIff(init, search);
      assert Lookup(search, names[|names| - 1]) == Err(ResolveNames(names, search).error);
  }

  /** The keys of the resolved map are exactly the ids the names resolve to. */
  lemma {:induction false} ResolveNamesKeys(names: seq<string>, search: string -> SearchResponse)
    requires ResolveNames(names, search).Ok?
    ensures forall k :: k in ResolveNames(names, search).value <==>
                        exists i :: 0 <= i < |names| && Lookup(search, names[i]) == Ok(k)
  {
    if names != [] {
      var n := |names| - 1;
      var init := names[..n];
      assert forall i :: 0 <= i < |init| ==> init[i] == names[i];
      ResolveNamesKeys(init, search);
      var m0 := ResolveNames(init, search).value;
      var id := Lookup(search, names[n]).value;
      var m := ResolveNames(names, search).value;
      assert m == m0[id := names[n]];
      forall k | k in m
        ensures exists i :: 0 <= i < |names| && Lookup(search, names[i]) == Ok(k)
      {
        if k == id {
          assert Lookup(search, names[n]) == Ok(k);
        } else {
          assert k in m0;
        }
      }
    }
  }

  /**
   * When two names resolve to the same id, the later one is the value:
   * a name that no later name shares an id with is the value at its id.
   */
  lemma {:induction false} ResolveNamesLaterWins(names: seq<string>, search: string -> SearchResponse, i: nat, k: int)
    requires ResolveNames(names, search).Ok?
    requires i < |names| && Lookup(search, names[i]) == Ok(k)
    requires forall j :: i < j < |names| ==> Lookup(search, names[j]) != Ok(k)
    ensures k in ResolveNames(names, search).value
    ensures ResolveNames(names, search).value[k] == names[i]
  {
    var n := |names| - 1;
    var init := names[..n];
    if i < n {
      assert init[i] == names[i];
      assert forall j :: i < j < |init| ==> init[j] == names[j];
      ResolveNamesLaterWins(init, search, i, k);
    }
  }

  /** Every value of the resolved map is one of the queried names. */
  lemma {:induction false} ResolveNamesValues(names: seq<string>, search: string -> SearchResponse)
    requires ResolveNames(names, search).Ok?
    ensures forall k :: k in ResolveNames(names, search).value ==> ResolveNames(names, search).value[k] in names
  {
    if names != [] {
      var n := |names| - 1;
      var init := names[..n];
      ResolveNamesValues(init, search);
      var m0 := ResolveNames(init, search).value;
      var m := ResolveNames(names, search).value;
      forall k | k in m
        ensures m[k] in names
      {
        if k in m0 && m[k] == m0[k] {
          assert m0[k] in init;
        }
      }
    }
  }

  /**
   * `get_tag_ids`: one query per name, in order, filling `result`. Also
   * returns the names queried, which is every name on success and stops
   * at the failing name otherwise.
   */
  method GetTagIds(names: seq<string>, search: string -> SearchResponse)
    returns (result: Result<map<int, string>, LookupError>, queried: seq<string>)
    ensures result == ResolveNames(names, search)
    ensures result.Ok? ==> queried == names
    ensures result.Err? ==> 0 < |queried| <= |names| && queried == names[..|queried|]
                            && result.error.name == queried[|queried| - 1]
    ensures result.Err? ==> Lookup(search, queried[|queried| - 1]) == Err(result.error)
                            && forall j :: 0 <= j < |queried| - 1 ==> Lookup(search, queried[j]).Ok?
  {
    var resolved: map<int, string> := map[];
    queried := [];
    var i := 0;
    while i < |names|
      invariant 0 <= i <= |names|
      invariant ResolveNames(names[..i], search) == Ok(resolved)
      invariant queried == names[..i]
      invariant forall j :: 0 <= j < i ==> Lookup(search, names[j]).Ok?
    {
      var name := names[i];
      queried := queried + [name];
      var tagId := SelectTagId(search(name), name);
      assert names[..i + 1][..i] == names[..i];
      if tagId.Err? {
        result := Err(tagId.error);
        PrefixErrorPropagates(names, i + 1, search);
        return;
      }
      resolved := resolved[tagId.value := name];
      i := i + 1;
    }
    assert names[..i] == names;
    result := Ok(resolved);
  }

  /** Once a prefix of the names fails, resolving all of them fails with the same error. */
  lemma {:induction false} PrefixErrorPropagates(names: seq<string>, k: nat, search: string -> SearchResponse)
    requires k <= |names|
    requires ResolveNames(names[..k], search).Err?
    ensures ResolveNames(names, search) == ResolveNames(names[..k], search)
  {
    if k < |names| {
      var init := names[..|names| - 1];
      assert init[..k] == names[..k];
      PrefixErrorPropagates(init, k, search);
    } else {
      assert names[..k] == names;
    }
  }
}
