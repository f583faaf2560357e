/**
 * `postNotification`: the request body the bridge builds for the SDK from
 * the JSON texts JavaScript passes in. Parsing a text (`new JSONObject(text)`)
 * belongs to org.json and is a parameter here; the building is modelled step
 * by step as the bridge does it, and proved equal to `Outcome`.
 */
module Payload {
  import opened Wrappers
  import opened Json

  /** Whether `OneSignal.postNotification` was called, and with what. */
  datatype PostOutcome = Posted(payload: map<string, Json>) | Aborted

  const HiddenKey: string := "hidden"

  /** Java's `String.trim` removes this character from either end. */
  predicate IsTrimmed(c: char) {
    c <= ' '
  }

  /** The index of the first character from `i` on that `trim()` keeps. */
  function FirstKept(s: string, i: nat): (n: nat)
    requires i <= |s|
    ensures i <= n <= |s|
    ensures n == |s| || !IsTrimmed(s[n])
    ensures forall k :: i <= k < n ==> IsTrimmed(s[k])
    decreases |s| - i
  {
    if i < |s| && IsTrimmed(s[i]) then FirstKept(s, i + 1) else i
  }

  /** The index just past the last character before `j` that `trim()` keeps. */
  function EndKept(s: string, j: nat): (n: nat)
    requires j <= |s|
    ensures n <= j
    ensures n == 0 || !IsTrimmed(s[n - 1])
    ensures forall k :: n <= k < j ==> IsTrimmed(s[k])
  {
    if j > 0 && IsTrimmed(s[j - 1]) then EndKept(s, j - 1) else j
  }

  /** `s` after the forward scan of `String.trim`. */
  function TrimStart(s: string): (r: string)
    ensures |r| <= |s| && r == s[|s| - |r|..]
    ensures r == [] || !IsTrimmed(r[0])
    ensures forall i :: 0 <= i < |s| - |r| ==> IsTrimmed(s[i])
  {
    s[FirstKept(s, 0)..]
  }

  /** `s` before the backward scan of `String.trim`. */
  function TrimEnd(s: string): (r: string)
    ensures |r| <= |s| && r == s[..|r|]
    ensures r == [] || !IsTrimmed(r[|r| - 1])
    ensures forall i :: |r| <= i < |s| ==> IsTrimmed(s[i])
  {
    s[..EndKept(s, |s|)]
  }

  /**
   * `String.trim`: `s` without its leading and trailing characters up to
   * U+0020; what remains neither starts nor ends with one.
   */
  function Trim(s: string): (r: string)
    ensures |r| <= |s|
    ensures r == [] || (!IsTrimmed(r[0]) && !IsTrimmed(r[|r| - 1]))
  {
    TrimEnd(TrimStart(s))
  }

  /**
   * `trim()` removes characters only at the ends: the result is the slice of
   * `s` after its leading run of characters up to U+0020, and everything
   * outside that slice is such a character.
   */
  lemma TrimIsSlice(s: string)
    ensures var start := |s| - |TrimStart(s)|;
            && Trim(s) == s[start..start + |Trim(s)|]
            && (forall i :: 0 <= i < start ==> IsTrimmed(s[i]))
            && (forall i :: start + |Trim(s)| <= i < |s| ==> IsTrimmed(s[i]))
  {
  }

  /** `otherParameters.trim().isEmpty()` holds exactly for the strings made only of characters up to U+0020. */
  lemma TrimEmptyIffBlank(s: string)
    ensures |Trim(s)| == 0 <==> forall i :: 0 <= i < |s| ==> IsTrimmed(s[i])
  {
  }

  /** Whether the bridge merges `otherParameters` at all. */
  predicate HasParameters(otherParameters: Option<string>)
    ensures HasParameters(otherParameters) <==>
              otherParameters.Some? && exists i :: 0 <= i < |otherParameters.value| && !IsTrimmed(otherParameters.value[i])
  {
    otherParameters.Some? && |Trim(otherParameters.value)| > 0
  }

  /**
   * The request body before `otherParameters` is merged: always `contents`;
   * `include_player_ids` exactly when a player id is given; `data` exactly
   * when additional data is given, holding it under `p2p_notification`.
   */
  function BasePayload(contents: map<string, Json>, data: Option<map<string, Json>>,
                       playerId: Option<string>): (r: map<string, Json>)
    ensures r.Keys == {"contents"} + (if playerId.Some? then {"include_player_ids"} else {})
                                   + (if data.Some? then {"data"} else {})
    ensures r["contents"] == JObject(contents)
    ensures playerId.Some? ==> r["include_player_ids"] == JArray([JString(playerId.value)])
    ensures data.Some? ==> r["data"] == JObject(map["p2p_notification" := JObject(data.value)])
  {
    var withContents := map["contents" := JObject(contents)];
    var withPlayer := if playerId.Some? then withContents["include_player_ids" := JArray([JString(playerId.value)])]
                      else withContents;
    if data.Some? then withPlayer["data" := JObject(map["p2p_notification" := JObject(data.value)])]
    else withPlayer
  }

  /**
   * Adds `hidden: true` to the `data` object; `getJSONObject("data")` throws
   * when there is no `data` or it is not an object, and nothing is posted.
   */
  function MarkHidden(payload: map<string, Json>): (r: PostOutcome)
    ensures r.Posted? <==> "data" in payload && payload["data"].JObject?
    ensures r.Posted? ==> r.payload.Keys == payload.Keys
    ensures r.Posted? ==> r.payload["data"] == JObject(payload["data"].fields[HiddenKey := JBool(true)])
    ensures r.Posted? ==> forall k :: k in payload && k != "data" ==> r.payload[k] == payload[k]
  {
    if "data" in payload && payload["data"].JObject? then
      Posted(payload["data" := JObject(payload["data"].fields[HiddenKey := JBool(true)])])
    else Aborted
  }

  /**
   * The body merged with the parsed `otherParameters`, then the hidden flag:
   * applied only when `hidden` is present; a value that is not a boolean
   * makes `getBoolean` throw.
   */
  function Merge(base: map<string, Json>, parameters: map<string, Json>): (r: PostOutcome)
    ensures HiddenKey !in parameters ==> r == Posted(base + parameters)
    ensures r.Posted? ==> r.payload.Keys == base.Keys + parameters.Keys
    ensures r.Posted? ==> forall k :: k in parameters && k != "data" ==> r.payload[k] == parameters[k]
    ensures r.Posted? ==> forall k :: k in base && k !in parameters && k != "data" ==> r.payload[k] == base[k]
    ensures HiddenKey in parameters && GetBoolean(parameters[HiddenKey]) == Some(true) ==>
              r == MarkHidden(base + parameters)
    ensures HiddenKey in parameters && GetBoolean(parameters[HiddenKey]) == Some(false) ==>
              r == Posted(base + parameters)
    ensures HiddenKey in parameters && GetBoolean(parameters[HiddenKey]).None? ==> r == Aborted
  {
    var merged := base + parameters;
    if HiddenKey in parameters then
      match GetBoolean(parameters[HiddenKey])
      case None => Aborted
      case Some(hidden) => if hidden then MarkHidden(merged) else Posted(merged)
    else Posted(merged)
  }

  /** What `postNotification` posts, or that it aborts on a `JSONException`. */
  function Outcome(parse: string -> ObjectText, contents: string, data: Option<string>,
                   playerId: Option<string>, otherParameters: Option<string>): (r: PostOutcome)
    ensures parse(contents).Malformed? ==> r == Aborted
    ensures data.Some? && parse(data.value).Malformed? ==> r == Aborted
    ensures HasParameters(otherParameters) && parse(Trim(otherParameters.value)).Malformed? ==> r == Aborted
    ensures r.Posted? ==> "contents" in r.payload
    ensures r.Posted? && playerId.Some? ==> "include_player_ids" in r.payload
    ensures r.Posted? && data.Some? ==> "data" in r.payload
    ensures parse(contents).Parsed? && (data.Some? ==> parse(data.value).Parsed?) && !HasParameters(otherParameters) ==>
              r == Posted(BasePayload(parse(contents).fields,
                                      if data.Some? then Some(parse(data.value).fields) else None, playerId))
    ensures parse(contents).Parsed? && (data.Some? ==> parse(data.value).Parsed?) && HasParameters(otherParameters)
            && parse(Trim(otherParameters.value)).Parsed? ==>
              r == Merge(BasePayload(parse(contents).fields,
                                     if data.Some? then Some(parse(data.value).fields) else None, playerId),
                         parse(Trim(otherParameters.value)).fields)
  {
    if parse(contents).Malformed? then Aborted
    else if data.Some? && parse(data.value).Malformed? then Aborted
    else
      var base := BasePayload(parse(contents).fields,
                              if data.Some? then Some(parse(data.value).fields) else None, playerId);
      if !HasParameters(otherParameters) then Posted(base)
      else if parse(Trim(otherParameters.value)).Malformed? then Aborted
      else Merge(base, parse(Trim(otherParameters.value)).fields)
  }

  /**
   * `postNotification(contents, data, playerId, otherParameters)`, with
   * `None` for a null `data`, `playerId` or `otherParameters`.
   */
  method PostNotification(parse: string -> ObjectText, contents: string, data: Option<string>,
                          playerId: Option<string>, otherParameters: Option<string>)
    returns (r: PostOutcome)
    ensures r == Outcome(parse, contents, data, playerId, otherParameters)
  {
    var contentsJson := parse(contents);
    if contentsJson.Malformed? {
      return Aborted;
    }
    var payload := map["contents" := JObject(contentsJson.fields)];
    if playerId.Some? {
      payload := payload["include_player_ids" := JArray([JString(playerId.value)])];
    }
    if data.Some? {
      var dataJson := parse(data.value);
      if dataJson.Malformed? {
        return Aborted;
      }
      payload := payload["data" := JObject(map["p2p_notification" := JObject(dataJson.fields)])];
    }
    ghost var base := payload;
    assert base == BasePayload(contentsJson.fields,
                               if data.Some? then Some(parse(data.value).fields) else None, playerId);
    if otherParameters.Some? && |Trim(otherParameters.value)| > 0 {
      assert HasParameters(otherParameters);
      var parametersJson := parse(Trim(otherParameters.value));
      if parametersJson.Malformed? {
        return Aborted;
      }
      var parameters := parametersJson.fields;
      assert Outcome(parse, contents, data, playerId, otherParameters) == Merge(base, parameters);
      payload := PutAll(payload, parameters);
      if HiddenKey in parameters {
        var hidden := GetBoolean(parameters[HiddenKey]);
        if hidden.None? {
          return Aborted;
        }
        if hidden.value {
          assert Merge(base, parameters) == MarkHidden(payload);
          if !("data" in payload && payload["data"].JObject?) {
            return Aborted;
          }
          payload := payload["data" := JObject(payload["data"].fields[HiddenKey := JBool(true)])];
        }
      }
      assert Posted(payload) == Merge(base, parameters);
    } else {
      assert !HasParameters(otherParameters);
    }
    r := Posted(payload);
  }

  /**
   * The loop of `postNotification` that puts every key of the parsed
   * parameters into the body, each overwriting an entry already there.
   */
  method PutAll(payload: map<string, Json>, parameters: map<string, Json>) returns (r: map<string, Json>)
    ensures r == payload + parameters
    ensures r.Keys == payload.Keys + parameters.Keys
    ensures forall k :: k in parameters ==> r[k] == parameters[k]
    ensures forall k :: k in payload && k !in parameters ==> r[k] == payload[k]
  {
    r := payload;
    var keys := parameters.Keys;
    while keys != {}
      invariant keys <= parameters.Keys
      invariant r == payload + (parameters - keys)
      decreases keys
    {
      var key :| key in keys;
      r := r[key := parameters[key]];
      keys := keys - {key};
    }
    assert parameters - {} == parameters;
  }

  /** A null or whitespace-only `otherParameters` adds nothing to the body. */
  lemma BlankParametersAddNothing(parse: string -> ObjectText, contents: string, data: Option<string>,
                                  playerId: Option<string>, otherParameters: Option<string>)
    requires parse(contents).Parsed?
    requires data.Some? ==> parse(data.value).Parsed?
    requires otherParameters.Some? ==> forall i :: 0 <= i < |otherParameters.value| ==> IsTrimmed(otherParameters.value[i])
    ensures Outcome(parse, contents, data, playerId, otherParameters)
              == Posted(BasePayload(parse(contents).fields,
                                    if data.Some? then Some(parse(data.value).fields) else None, playerId))
  {
  }

  /**
   * `hidden: true` among the parameters: either the posted body's `data`
   * object carries `hidden: true`, or there was no `data` object to mark and
   * nothing was posted.
   */
  lemma HiddenParameterMarksData(parse: string -> ObjectText, contents: string, data: Option<string>,
                                 playerId: Option<string>, otherParameters: string)
    requires parse(contents).Parsed?
    requires data.Some? ==> parse(data.value).Parsed?
    requires exists i :: 0 <= i < |otherParameters| && !IsTrimmed(otherParameters[i])
    requires parse(Trim(otherParameters)).Parsed?
    requires HiddenKey in parse(Trim(otherParameters)).fields
    requires GetBoolean(parse(Trim(otherParameters)).fields[HiddenKey]) == Some(true)
    ensures var r := Outcome(parse, contents, data, playerId, Some(otherParameters));
            r.Posted? ==> r.payload["data"].JObject? && r.payload["data"].fields[HiddenKey] == JBool(true)
    ensures var r := Outcome(parse, contents, data, playerId, Some(otherParameters));
            var parameters := parse(Trim(otherParameters)).fields;
            r.Aborted? <==> if "data" in parameters then !parameters["data"].JObject? else data.None?
  {
    var base := BasePayload(parse(contents).fields,
                            if data.Some? then Some(parse(data.value).fields) else None, playerId);
    var parameters := parse(Trim(otherParameters)).fields;
    assert HasParameters(Some(otherParameters));
    assert Outcome(parse, contents, data, playerId, Some(otherParameters)) == Merge(base, parameters);
    assert Merge(base, parameters) == MarkHidden(base + parameters);
    MergeAbortsExactlyWhenHiddenFails(base, parameters, data.Some?);
  }

  /**
   * Whether the `hidden` step throws: `hidden` is present and either does not
   * coerce to a boolean, or is true while the merged body has no `data`
   * object (the parameters' own `data` if they have one, the given data
   * otherwise).
   */
  predicate HiddenStepFails(parameters: map<string, Json>, hasData: bool) {
    HiddenKey in parameters &&
    match GetBoolean(parameters[HiddenKey])
    case None => true
    case Some(hidden) => hidden && !(if "data" in parameters then parameters["data"].JObject? else hasData)
  }

  /** Every way `postNotification` can meet a `JSONException`. */
  predicate PostThrows(parse: string -> ObjectText, contents: string, data: Option<string>,
                       otherParameters: Option<string>) {
    || parse(contents).Malformed?
    || (data.Some? && parse(data.value).Malformed?)
    || (HasParameters(otherParameters)
        && (parse(Trim(otherParameters.value)).Malformed?
            || HiddenStepFails(parse(Trim(otherParameters.value)).fields, data.Some?)))
  }

  /** The merge step aborts exactly when its `hidden` step throws. */
  lemma MergeAbortsExactlyWhenHiddenFails(base: map<string, Json>, parameters: map<string, Json>, hasData: bool)
    requires "data" in base <==> hasData
    requires "data" in base ==> base["data"].JObject?
    ensures Merge(base, parameters).Aborted? <==> HiddenStepFails(parameters, hasData)
  {
    if HiddenKey in parameters && GetBoolean(parameters[HiddenKey]) == Some(true) {
      var merged := base + parameters;
      assert "data" in merged <==> "data" in parameters || hasData;
      assert "data" in merged ==> merged["data"] == if "data" in parameters then parameters["data"] else base["data"];
    }
  }

  /** Nothing is posted exactly when one of the steps throws; otherwise a body is posted. */
  lemma AbortsExactlyWhenThrows(parse: string -> ObjectText, contents: string, data: Option<string>,
                                playerId: Option<string>, otherParameters: Option<string>)
    ensures Outcome(parse, contents, data, playerId, otherParameters).Aborted?
        <==> PostThrows(parse, contents, data, otherParameters)
  {
    var r := Outcome(parse, contents, data, playerId, otherParameters);
    var c := parse(contents);
    if c.Malformed? {
      assert r == Aborted;
      assert PostThrows(parse, contents, data, otherParameters);
    } else if data.Some? && parse(data.value).Malformed? {
      assert r == Aborted;
      assert PostThrows(parse, contents, data, otherParameters);
    } else {
      var base := BasePayload(c.fields, if data.Some? then Some(parse(data.value).fields) else None, playerId);
      if !HasParameters(otherParameters) {
        assert r == Posted(base);
        assert !PostThrows(parse, contents, data, otherParameters);
      } else {
        var p := parse(Trim(otherParameters.value));
        if p.Malformed? {
          assert r == Aborted;
          assert PostThrows(parse, contents, data, otherParameters);
        } else {
          assert r == Merge(base, p.fields);
          assert PostThrows(parse, contents, data, otherParameters) == HiddenStepFails(p.fields, data.Some?);
          MergeAbortsExactlyWhenHiddenFails(base, p.fields, data.Some?);
        }
      }
    }
  }

}
