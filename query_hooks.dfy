/**
 * The data hooks over the query cache: the cache key each query hook derives,
 * whether a by-id query runs, which keys each mutation invalidates on success,
 * and the global loading flag. The cache itself (storage, staleness, prefix
 * matching) is not modelled; keys are compared as values.
 */
module QueryHooks {
  import opened Wrappers
  import opened JsValues
  import opened JsStrings
  import HttpClient

  /** A query key: an array of values. */
  type QueryKey = seq<JsValue>

  /** `key` starts with all of `prefix`: the way invalidating by `prefix` reaches `key`. */
  predicate IsPrefixKey(prefix: QueryKey, key: QueryKey) {
    |prefix| <= |key| && key[..|prefix|] == prefix
  }

  const EmptyParams: JsValue := Obj(map[])

  /** `useFetch(endpoint, params = {})`: the key is `[endpoint, params]`. */
  function FetchKey(endpoint: string, params: Option<JsValue>): (k: QueryKey)
    ensures |k| == 2 && k[0] == Str(endpoint)
    ensures params.None? ==> k[1] == EmptyParams
    ensures params.Some? ==> k[1] == params.value
  {
    [Str(endpoint), params.GetOr(EmptyParams)]
  }

  /** Two list queries share a cache entry only for the same endpoint and parameters. */
  lemma FetchKeyInjective(e1: string, p1: JsValue, e2: string, p2: JsValue)
    requires FetchKey(e1, Some(p1)) == FetchKey(e2, Some(p2))
    ensures e1 == e2 && p1 == p2
  {
    assert FetchKey(e1, Some(p1))[0] == Str(e1);
    assert FetchKey(e1, Some(p1))[1] == p1;
  }

  /** `useFetchById`: `[endpoint.replace(":id", String(id || "")), id]` */
  function FetchByIdKey(endpoint: string, id: JsValue): (k: QueryKey)
    ensures |k| == 2 && k[1] == id
    ensures Truthy(id) ==> k[0] == Str(ReplaceFirst(endpoint, ":id", ToJsString(id)))
    ensures !Truthy(id) ==> k[0] == Str(ReplaceFirst(endpoint, ":id", ""))
  {
    [Str(ReplaceFirst(endpoint, ":id", ToJsString(Or(id, Str(""))))), id]
  }

  /** `enabled: !!id` */
  predicate FetchByIdEnabled(id: JsValue)
    ensures id == Undefined || id == Null ==> !FetchByIdEnabled(id)
    ensures id.Num? ==> (FetchByIdEnabled(id) <==> id.n != 0)
    ensures id.Str? ==> (FetchByIdEnabled(id) <==> id.s != "")
  {
    Truthy(id)
  }

  /** For a numeric id the query runs and its key names the URL `getById` requests. */
  lemma FetchByIdKeyIsUrl(endpoint: string, n: int)
    requires n != 0 && Includes(endpoint, ":id")
    ensures FetchByIdEnabled(Num(n))
    ensures HttpClient.GetByIdUrl(endpoint, Num(n)).Some?
    ensures FetchByIdKey(endpoint, Num(n))[0] == Str(HttpClient.GetByIdUrl(endpoint, Num(n)).value)
  {
  }

  /** A falsy id (0, "", null, undefined) disables the query, and ":id" is dropped from its key. */
  lemma FetchByIdFalsyId(endpoint: string, id: JsValue, i: nat)
    requires !Truthy(id) && IndexOf(endpoint, ":id") == Some(i)
    ensures !FetchByIdEnabled(id)
    ensures FetchByIdKey(endpoint, id)[0] == Str(endpoint[..i] + endpoint[i + 3..])
  {
    ReplaceFirstLiteral(endpoint, ":id", "", i);
  }

  // ---------------------------------------------------------- invalidation

  /** The mutation hooks, with the variables their `onSuccess` sees. */
  datatype Mutation = CreateMutation | UpdateMutation(id: JsValue) | DeleteMutation

  /** The keys the built-in `onSuccess` of each mutation hook invalidates. */
  function Invalidations(endpoint: string, m: Mutation): (ks: seq<QueryKey>)
    ensures m.CreateMutation? ==> ks == [[Str(endpoint)]]
    ensures m.UpdateMutation? ==> ks == [[Str(endpoint), m.id], [Str(endpoint + "/")]]
    ensures m.DeleteMutation? ==> ks == [[Str(endpoint + "/")]]
  {
    match m
    case CreateMutation => [[Str(endpoint)]]
    case UpdateMutation(id) => [[Str(endpoint), id], [Str(endpoint + "/")]]
    case DeleteMutation => [[Str(endpoint + "/")]]
  }

  /**
   * Updating or deleting through `endpoint` invalidates the list fetched from
   * `endpoint + "/"`, whatever its parameters; creating through a list endpoint
   * invalidates that list.
   */
  lemma MutationsReachTheList(endpoint: string, params: Option<JsValue>, m: Mutation)
    ensures !m.CreateMutation? ==> exists k :: k in Invalidations(endpoint, m) && IsPrefixKey(k, FetchKey(endpoint + "/", params))
    ensures m.CreateMutation? ==> exists k :: k in Invalidations(endpoint, m) && IsPrefixKey(k, FetchKey(endpoint, params))
  {
    var ks := Invalidations(endpoint, m);
    if m.CreateMutation? {
      assert IsPrefixKey(ks[0], FetchKey(endpoint, params));
    } else {
      var k := ks[|ks| - 1];
      assert k == [Str(endpoint + "/")];
      assert IsPrefixKey(k, FetchKey(endpoint + "/", params));
    }
  }

  /** What a successful mutation does besides the per-call callbacks. */
  datatype SuccessEffects = SuccessEffects(invalidated: seq<QueryKey>, hookCallbackRuns: bool)

  /**
   * As written: `...options` is spread after the built-in `onSuccess`, so a
   * hook-level `options.onSuccess` replaces it, invalidation included.
   */
  function SuccessEffectsAsWritten(endpoint: string, m: Mutation, hookOnSuccess: bool): (e: SuccessEffects)
    ensures hookOnSuccess ==> e == SuccessEffects([], true)
    ensures !hookOnSuccess ==> e == SuccessEffects(Invalidations(endpoint, m), false)
  {
    if hookOnSuccess then SuccessEffects([], true) else SuccessEffects(Invalidations(endpoint, m), false)
  }

  /** As the built-in handler's own `if (options.onSuccess)` intends: invalidate, then run the hook callback. */
  function SuccessEffectsIntended(endpoint: string, m: Mutation, hookOnSuccess: bool): (e: SuccessEffects)
    ensures e.invalidated == Invalidations(endpoint, m)
    ensures e.hookCallbackRuns == hookOnSuccess
  {
    SuccessEffects(Invalidations(endpoint, m), hookOnSuccess)
  }

  /** With a hook-level `onSuccess` the written code invalidates nothing, though the intended handler would. */
  lemma HookOnSuccessSuppressesInvalidation(endpoint: string, m: Mutation)
    ensures SuccessEffectsAsWritten(endpoint, m, true).invalidated == []
    ensures |SuccessEffectsIntended(endpoint, m, true).invalidated| >= 1
    ensures SuccessEffectsAsWritten(endpoint, m, true) != SuccessEffectsIntended(endpoint, m, true)
  {
  }

  /** Without one, as every caller in the application does, the two agree. */
  lemma AgreeWithoutHookOnSuccess(endpoint: string, m: Mutation)
    ensures SuccessEffectsAsWritten(endpoint, m, false) == SuccessEffectsIntended(endpoint, m, false)
  {
  }

  // ------------------------------------------------------- custom and load

  /** `useFetchCustom`: the key is characters 8 to 21 of the text before the first ".". */
  function CustomKey(endpoint: string): (k: string)
    ensures |k| <= 14
    ensures k != "" ==> 8 + |k| <= |FirstSegment(endpoint, ".")| && k == FirstSegment(endpoint, ".")[8..8 + |k|]
    ensures |FirstSegment(endpoint, ".")| <= 8 ==> k == ""
    ensures |FirstSegment(endpoint, ".")| > 8 ==>
      k == FirstSegment(endpoint, ".")[8..if |FirstSegment(endpoint, ".")| < 22 then |FirstSegment(endpoint, ".")| else 22]
  {
    Slice(FirstSegment(endpoint, "."), 8, 22)
  }

  /** For "https://" followed by a host label without "." the key is the label, cut to 14 characters. */
  lemma CustomKeyOfHttpsUrl(host: string, rest: string)
    requires '.' !in host
    ensures CustomKey("https://" + host + "." + rest) == if |host| <= 14 then host else host[..14]
  {
    var e := "https://" + host + "." + rest;
    assert e[..8 + |host|] == "https://" + host;
    assert MatchesAt(e, ".", 8 + |host|) by {
      assert e[8 + |host|..8 + |host| + 1] == ".";
    }
    assert forall j :: 0 <= j < 8 + |host| ==> !MatchesAt(e, ".", j) by {
      forall j | 0 <= j < 8 + |host| ensures !MatchesAt(e, ".", j) {
        assert e[j..j + 1] == [e[j]];
        if j >= 8 {
          assert e[j] == host[j - 8];
        }
      }
    }
    var seg := FirstSegment(e, ".");
    assert |seg| == 8 + |host|;
    assert seg == "https://" + host;
    assert seg[8..] == host;
  }

  /** A cached query's fetch status, and a mutation's status, as the query client tracks them. */
  datatype FetchStatus = Fetching | Paused | FetchIdle
  datatype MutationStatus = MutationIdle | Pending | Succeeded | Failed

  /** `queryClient.isFetching()`: the number of queries whose fetch status is "fetching". */
  function FetchingCount(queries: seq<FetchStatus>): nat
    decreases |queries|
  {
    if queries == [] then 0 else (if queries[0] == Fetching then 1 else 0) + FetchingCount(queries[1..])
  }

  /** `queryClient.isMutating()`: the number of mutations whose status is "pending". */
  function PendingCount(mutations: seq<MutationStatus>): nat
    decreases |mutations|
  {
    if mutations == [] then 0 else (if mutations[0] == Pending then 1 else 0) + PendingCount(mutations[1..])
  }

  /** The fetching count is positive exactly when some query is fetching. */
  lemma {:induction false} FetchingCountPositive(queries: seq<FetchStatus>)
    ensures FetchingCount(queries) > 0 <==> Fetching in queries
    decreases |queries|
  {
    if queries != [] {
      FetchingCountPositive(queries[1..]);
      assert queries == [queries[0]] + queries[1..];
    }
  }

  /** The pending count is positive exactly when some mutation is pending. */
  lemma {:induction false} PendingCountPositive(mutations: seq<MutationStatus>)
    ensures PendingCount(mutations) > 0 <==> Pending in mutations
    decreases |mutations|
  {
    if mutations != [] {
      PendingCountPositive(mutations[1..]);
      assert mutations == [mutations[0]] + mutations[1..];
    }
  }

  /** `useLoadingState`: loading exactly while some query is fetching or some mutation is pending. */
  function IsLoading(queries: seq<FetchStatus>, mutations: seq<MutationStatus>): (r: bool)
    ensures r <==> Fetching in queries || Pending in mutations
  {
    FetchingCountPositive(queries);
    PendingCountPositive(mutations);
    FetchingCount(queries) > 0 || PendingCount(mutations) > 0
  }
}
