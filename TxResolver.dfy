/**
 * `get_builder_from_tx`: resolves the builder address of a transaction through a
 * remote transaction-detail query, memoised per transaction hash. The remote
 * query is the `fetch` parameter; every query made is recorded in `lookups`.
 */
module TxResolver {
  import opened Wrappers
  import opened JsonValue
  import opened BuilderSearch
  import opened Addresses

  /** What the transaction-detail query yields: the decoded body, or a failure. */
  datatype FetchResult = Ok(data: Json) | Err

  /** One remote query: the hash asked about and whether it succeeded. */
  datatype Lookup = Lookup(hash: string, succeeded: bool)

  /** `isinstance(v, str)`: the string inside a value, if it is one. */
  function StringOf(v: Option<Json>): (r: Option<string>)
    ensures r.Some? <==> v.Some? && v.value.JStr?
    ensures r.Some? ==> v == Some(JStr(r.value))
  {
    if v.Some? && v.value.JStr? then Some(v.value.s) else None
  }

  /** A cached entry as the resolver hands it back (a string or `None`). */
  function FromCache(entry: Option<string>): (r: Option<Json>)
    ensures r.None? <==> entry.None?
    ensures StringOf(r) == entry
  {
    if entry.Some? then Some(JStr(entry.value)) else None
  }

  /** A hash the resolver will act on: present and non-empty (`if not tx_hash`). */
  predicate Present(txHash: Option<string>) {
    txHash.Some? && txHash.value != ""
  }

  /** What the resolver returns for `txHash`, given the cache before the call. */
  function Answer(cache: map<string, Option<string>>, txHash: Option<string>,
                  fetch: string -> FetchResult): Option<Json>
  {
    if !Present(txHash) then None
    else if txHash.value in cache then FromCache(cache[txHash.value])
    else match fetch(txHash.value)
      case Ok(data) => Find(data)
      case Err => None
  }

  /** The entry a successful query stores: the normalised address found, or `None`. */
  function Entry(data: Json): Option<string> {
    NormalizeAddress(StringOf(Find(data)))
  }

  /** The hashes of the successful queries in `log`. */
  function Succeeded(log: seq<Lookup>): set<string> {
    if log == [] then {}
    else
      var last := log[|log| - 1];
      Succeeded(log[..|log| - 1]) + (if last.succeeded then {last.hash} else {})
  }

  lemma {:induction false} SucceededMembers(log: seq<Lookup>)
    ensures forall i :: 0 <= i < |log| && log[i].succeeded ==> log[i].hash in Succeeded(log)
  {
    if log != [] {
      SucceededMembers(log[..|log| - 1]);
    }
  }

  class Resolver {
    /** `TX_CACHE`: transaction hash to normalised builder address or `None`. */
    var cache: map<string, Option<string>>
    /** Every remote query made so far, in order (a record kept for the proofs). */
    ghost var lookups: seq<Lookup>

    /**
     * The cache holds exactly the hashes whose query succeeded, and no hash was
     * queried successfully twice.
     */
    ghost predicate Valid()
      reads this
    {
      && cache.Keys == Succeeded(lookups)
      && forall i, j :: 0 <= i < j < |lookups| && lookups[i].succeeded && lookups[j].succeeded ==>
           lookups[i].hash != lookups[j].hash
    }

    constructor ()
      ensures Valid() && cache == map[] && lookups == []
    {
      cache := map[];
      lookups := [];
    }

    method Resolve(txHash: Option<string>, fetch: string -> FetchResult) returns (r: Option<Json>)
      requires Valid()
      modifies this
      ensures Valid()
      ensures r == Answer(old(cache), txHash, fetch)
      // no hash, or a cached one: no query, no change
      ensures !Present(txHash) || txHash.value in old(cache) ==>
        cache == old(cache) && lookups == old(lookups)
      // a miss queries once; only a successful query is cached
      ensures Present(txHash) && txHash.value !in old(cache) ==>
        var h := txHash.value;
        && lookups == old(lookups) + [Lookup(h, fetch(h).Ok?)]
        && cache == (if fetch(h).Ok? then old(cache)[h := Entry(fetch(h).data)] else old(cache))
    {
      if !Present(txHash) {
        return None;
      }
      var h := txHash.value;
      if h in cache {
        return FromCache(cache[h]);
      }
      var response := fetch(h);
      match response
      case Ok(data) =>
        var found := Find(data);
        SucceededMembers(lookups);
        cache := cache[h := NormalizeAddress(StringOf(found))];
        lookups := lookups + [Lookup(h, true)];
        r := found;
      case Err =>
        lookups := lookups + [Lookup(h, false)];
        r := None;
    }
  }

  /**
   * Once a query has succeeded, asking again answers from the cache, and the
   * two answers agree once normalised (the first is the raw value found, the
   * second its lowercased cache entry).
   */
  lemma RepeatAgrees(cache: map<string, Option<string>>, h: string, fetch: string -> FetchResult)
    requires h != "" && h !in cache && fetch(h).Ok?
    ensures var cache' := cache[h := Entry(fetch(h).data)];
      NormalizeAddress(StringOf(Answer(cache', Some(h), fetch))) ==
      NormalizeAddress(StringOf(Answer(cache, Some(h), fetch)))
  {
    NormalizeIdempotent(StringOf(Find(fetch(h).data)));
  }

  /** Two resolutions of the same hash make at most one successful query. */
  method ResolveTwice(res: Resolver, h: string, fetch: string -> FetchResult)
    returns (first: Option<Json>, second: Option<Json>)
    requires res.Valid() && h != ""
    modifies res
    ensures res.Valid()
    ensures |res.lookups| <= |old(res.lookups)| + 2
    ensures h in old(res.cache) ==> res.lookups == old(res.lookups) && first == second
    ensures fetch(h).Ok? ==> |res.lookups| <= |old(res.lookups)| + 1
    ensures fetch(h).Ok? ==> NormalizeAddress(StringOf(first)) == NormalizeAddress(StringOf(second))
  {
    first := res.Resolve(Some(h), fetch);
    second := res.Resolve(Some(h), fetch);
    if fetch(h).Ok? && h !in old(res.cache) {
      RepeatAgrees(old(res.cache), h, fetch);
    }
  }
}
