/**
 * SANetwork: the pure parts of sending a request — the endpoint, built from
 * the URL and the query object, and the mapping from the request's outcome to
 * the call of its listener.
 *
 * A JSON object is its entries in key-iteration order, each value given by
 * its `toString()` text, or null. The HTTP exchange itself is the outcome: a
 * result (status and payload) handed to `onFinish`, or nothing when the async task
 * threw, which reaches `onError`.
 */
module Network {
  import opened JavaLang

  /** A `JSONObject`: (key, `opt(key).toString()` or null) in the order `keys()` yields them. */
  datatype JsonObject = JsonObject(entries: seq<(string, Option<string>)>)

  /** `SANetworkResult.DEFAULT_STATUS`. */
  const DefaultStatus: int := -1

  /** `SANetworkResult`: the HTTP status and the body, which may be null. */
  datatype NetworkResult = NetworkResult(status: int, payload: Option<string>)

  /** A `SANetworkInterface` listener. */
  datatype NetListener = NetCaller(id: nat)

  /** The arguments of one `listener.response(status, payload, success)` call. */
  datatype Response = Response(status: int, payload: Option<string>, success: bool)

  // ---------------------------------------------------------------------------
  // The endpoint

  /** `isJSONEmpty`: a null object, or one without entries (which is also the one printing as "{}"). */
  predicate IsJsonEmpty(dict: Option<JsonObject>) {
    dict.None? || |dict.value.entries| == 0
  }

  /** One query pair: key, '=', and the value's text with every '"' removed, or nothing for null. */
  function Pair(entry: (string, Option<string>)): (r: string)
    ensures |r| > |entry.0| && r[..|entry.0| + 1] == entry.0 + "=" && '"' !in r[|entry.0| + 1..]
  {
    entry.0 + "=" + (if entry.1.Some? then RemoveChar(entry.1.value, '"') else "")
  }

  /** The pairs of the entries, in order, with one '&' between neighbours. */
  function Joined(entries: seq<(string, Option<string>)>): (r: string)
    requires |entries| > 0
    decreases |entries|
  {
    if |entries| == 1 then Pair(entries[0])
    else Joined(entries[..|entries| - 1]) + "&" + Pair(entries[|entries| - 1])
  }

  /** The query `formGetQueryFromDict` means to build: "" for an empty object, else k1=v1&...&kn=vn. */
  function QueryString(dict: Option<JsonObject>): string {
    if IsJsonEmpty(dict) then "" else Joined(dict.value.entries)
  }

  /** The text the for-loop accumulates: every pair followed by '&'. */
  function Terminated(entries: seq<(string, Option<string>)>): (r: string)
    decreases |entries|
  {
    if entries == [] then "" else Terminated(entries[..|entries| - 1]) + Pair(entries[|entries| - 1]) + "&"
  }

  /** Dropping the last '&' of the terminated pairs leaves the joined pairs. */
  lemma {:induction false} TerminatedIsJoinedPlusAmpersand(entries: seq<(string, Option<string>)>)
    requires |entries| > 0
    ensures Terminated(entries) == Joined(entries) + "&"
    decreases |entries|
  {
    if |entries| > 1 {
      TerminatedIsJoinedPlusAmpersand(entries[..|entries| - 1]);
    } else {
      assert entries[..0] == [];
    }
  }

  /**
   * `formGetQueryFromDict(dict)`: "" for a null or empty object; otherwise
   * one "key=value&" string per entry, concatenated, without its last
   * character.
   */
  method FormGetQueryFromDict(dict: Option<JsonObject>) returns (query: string)
    ensures query == QueryString(dict)
  {
    query := "";
    if IsJsonEmpty(dict) {
      return;
    }
    var entries := dict.value.entries;
    var queryArray := PairStrings(entries);
    var k := 0;
    while k < |queryArray|
      invariant 0 <= k <= |queryArray|
      invariant query == Terminated(entries[..k])
    {
      assert entries[..k + 1][..k] == entries[..k];
      query := query + queryArray[k];
      k := k + 1;
    }
    assert entries[..k] == entries;
    TerminatedIsJoinedPlusAmpersand(entries);
    JoinedIsNotEmpty(entries);
    query := query[..|query| - 1];
  }

  /** The while-loop over `dict.keys()`: "key=value&" for each entry, in order. */
  method PairStrings(entries: seq<(string, Option<string>)>) returns (queryArray: seq<string>)
    ensures |queryArray| == |entries| && forall k :: 0 <= k < |entries| ==> queryArray[k] == Pair(entries[k]) + "&"
  {
    queryArray := [];
    var i := 0;
    while i < |entries|
      invariant 0 <= i <= |entries|
      invariant |queryArray| == i && forall k :: 0 <= k < i ==> queryArray[k] == Pair(entries[k]) + "&"
    {
      queryArray := queryArray + [Pair(entries[i]) + "&"];
      i := i + 1;
    }
  }

  /** An empty object gives the empty query, and a non-empty one a query of all its pairs. */
  lemma QueryOfEntries(dict: Option<JsonObject>)
    ensures IsJsonEmpty(dict) ==> QueryString(dict) == ""
    ensures !IsJsonEmpty(dict) && |dict.value.entries| == 1 ==> QueryString(dict) == Pair(dict.value.entries[0])
    ensures !IsJsonEmpty(dict) && |dict.value.entries| > 1 ==>
      var e := dict.value.entries;
      QueryString(dict) == QueryString(Some(JsonObject(e[..|e| - 1]))) + "&" + Pair(e[|e| - 1])
  {
  }

  /** A query never ends in the '&' the builder appended: it ends in the last pair. */
  lemma {:induction false} QueryEndsInLastPair(dict: Option<JsonObject>)
    requires !IsJsonEmpty(dict)
    ensures var e := dict.value.entries; var q := QueryString(dict); var p := Pair(e[|e| - 1]);
      |q| >= |p| && q[|q| - |p|..] == p
  {
  }

  /** Every value's '"' characters are gone from the query. */
  lemma {:induction false} QueryHasNoQuotes(entries: seq<(string, Option<string>)>)
    requires |entries| > 0 && forall k :: 0 <= k < |entries| ==> '"' !in entries[k].0
    ensures '"' !in Joined(entries)
    decreases |entries|
  {
    var p := Pair(entries[|entries| - 1]);
    var key := entries[|entries| - 1].0;
    assert p == key + p[|key|..|key| + 1] + p[|key| + 1..];
    if |entries| > 1 {
      QueryHasNoQuotes(entries[..|entries| - 1]);
      assert Joined(entries) == Joined(entries[..|entries| - 1]) + "&" + p;
    }
  }

  /** The endpoint of `sendRequest` (line 83): the URL, then '?' and the query when the query object is not empty. */
  function Endpoint(url: string, query: Option<JsonObject>): (r: string)
    ensures |r| >= |url| && r[..|url|] == url
    ensures IsJsonEmpty(query) <==> r == url
    ensures !IsJsonEmpty(query) ==> r[|url|] == '?' && r[|url| + 1..] == QueryString(query)
  {
    if IsJsonEmpty(query) then url
    else
      JoinedIsNotEmpty(query.value.entries);
      url + "?" + QueryString(query)
  }

  /** The joined pairs hold at least "=" and so are never empty. */
  lemma {:induction false} JoinedIsNotEmpty(entries: seq<(string, Option<string>)>)
    requires |entries| > 0
    ensures |Joined(entries)| > 0
    decreases |entries|
  {
    if |entries| > 1 {
      JoinedIsNotEmpty(entries[..|entries| - 1]);
    }
  }

  // ---------------------------------------------------------------------------
  // The result and the listener

  /** `SANetworkResult.isValid`: a status above the default and a payload. */
  predicate IsValid(result: NetworkResult) {
    result.status > DefaultStatus && result.payload.Some?
  }

  /**
   * What the listener hears: `onFinish(result)` passes a valid result on as
   * (status, payload, true) and turns an invalid one into (0, null, false);
   * `onError()` (no result) also gives (0, null, false).
   */
  function Answer(outcome: Option<NetworkResult>): (r: Response)
    ensures r.success <==> outcome.Some? && IsValid(outcome.value)
    ensures r.success ==> r.status == outcome.value.status && r.payload == outcome.value.payload
    ensures !r.success ==> r == Response(0, None, false)
  {
    if outcome.Some? && IsValid(outcome.value) then
      Response(outcome.value.status, outcome.value.payload, true)
    else Response(0, None, false)
  }

  /** The calls a request makes: one `response` call on a non-null listener, none on a null one. */
  function ListenerCalls(listener: Option<NetListener>, outcome: Option<NetworkResult>): (r: seq<(NetListener, Response)>)
    ensures |r| <= 1
    ensures |r| == 1 <==> listener.Some?
    ensures |r| == 1 ==> r[0] == (listener.value, Answer(outcome))
  {
    if listener.Some? then [(listener.value, Answer(outcome))] else []
  }

  /** A successful answer is itself a valid result, and the one the request produced; a failed one carries no payload. */
  lemma AnswerRoundTrip(outcome: Option<NetworkResult>)
    ensures var a := Answer(outcome);
      a.success ==> IsValid(NetworkResult(a.status, a.payload)) && outcome == Some(NetworkResult(a.status, a.payload))
    ensures var a := Answer(outcome); !a.success ==> a.payload.None? && a.status == 0
  {
  }

  /** The default status, a negative status or a null payload always fails, whatever else the result holds. */
  lemma InvalidResultsFail(status: int, payload: Option<string>)
    ensures status <= DefaultStatus || payload.None? ==> !Answer(Some(NetworkResult(status, payload))).success
    ensures status >= 0 && payload.Some? ==> Answer(Some(NetworkResult(status, payload))).success
  {
  }
}
