/** The object that holds the catalog cache; each method is one synchronous stretch of the service. */
module CatalogService {
  import opened Prelude
  import opened CatalogProtocol

  const PREFIX := "opencode-go/"

  function BareModelId(modelId: string): string {
    if PREFIX <= modelId then modelId[|PREFIX|..] else modelId
  }

  /** The bare name of a model is its name without the prefix, if it has it. */
  lemma BareNames(id: string)
    ensures BareModelId("opencode-go/" + id) == id
    ensures !("opencode-go/" <= id) ==> BareModelId(id) == id
  {
    assert ("opencode-go/" + id)[|PREFIX|..] == id;
  }

  /** What a `list` call does with its caller. */
  datatype Listing = Served(entries: seq<Entry>) | Shared(fetch: FetchId) | Fetching(fetch: FetchId)

  class OpencodeGoCatalogService {
    var cache: Option<Cached>
    var lastGood: Option<seq<Entry>>
    var costByModelId: map<string, real>
    var formatByModelId: map<string, Format>
    var inflight: Option<FetchId>

    constructor ()
      ensures Shows(INITIAL)
    {
      cache, lastGood, costByModelId, formatByModelId, inflight := None, None, map[], map[], None;
    }

    /** The fields are those of the protocol state. */
    ghost predicate Shows(s: State)
      reads this
    {
      cache == s.cache && lastGood == s.lastGood && costByModelId == s.costs && formatByModelId == s.formats && inflight == s.inflight
    }

    method StartFetch(now: int, next: FetchId, ghost s: State)
      requires Shows(s)
      modifies this`inflight
      ensures Shows(Started(s, now, next))
    {
      inflight := Some(next);
    }

    method List(now: int, next: FetchId, ghost s: State) returns (r: Listing)
      requires Shows(s) && Enabled(s, Event.List(now, next))
      modifies this`inflight
      ensures Shows(Next(s, Event.List(now, next)))
      ensures r.Served? <==> Fresh(s, now)
      ensures r.Served? ==> r.entries == s.cache.value.entries
      ensures r.Shared? ==> s.inflight == Some(r.fetch)
      ensures r.Fetching? ==> r.fetch == next && Next(s, Event.List(now, next)) == Started(s, now, next)
    {
      if cache.Some? && cache.value.expiresAt > now {
        return Served(cache.value.entries);
      }
      if inflight.Some? {
        return Shared(inflight.value);
      }
      StartFetch(now, next, s);
      return Fetching(next);
    }

    method Refresh(now: int, next: FetchId, ghost s: State)
      requires Shows(s) && Enabled(s, Event.Refresh(now, next))
      modifies this`inflight
      ensures Shows(Next(s, Event.Refresh(now, next)))
    {
      StartFetch(now, next, s);
    }

    /** The last-known-good list, cached for the short error window. */
    method CacheFallback(now: int) returns (entries: seq<Entry>)
      modifies this`cache
      ensures entries == lastGood.GetOr([]) && cache == Some(Cached(entries, now + ERROR_BACKOFF_MS))
    {
      entries := if lastGood.Some? then lastGood.value else [];
      cache := Some(Cached(entries, now + ERROR_BACKOFF_MS));
    }

    method RebuildIndexes(entries: seq<Entry>)
      modifies this`costByModelId, this`formatByModelId
      ensures costByModelId == Costs(entries) && formatByModelId == Formats(entries)
    {
      var nextCosts: map<string, real>, nextFormats: map<string, Format> := map[], map[];
      var i := 0;
      while i < |entries|
        invariant i <= |entries| && nextCosts == Costs(entries[..i]) && nextFormats == Formats(entries[..i])
      {
        assert entries[..i + 1][..i] == entries[..i];
        nextFormats := nextFormats[entries[i].id := entries[i].format];
        if entries[i].cost.Some? {
          nextCosts := nextCosts[entries[i].id := entries[i].cost.value];
        }
        i := i + 1;
      }
      assert entries[..i] == entries;
      costByModelId, formatByModelId := nextCosts, nextFormats;
    }

    /** The end of `fetchAndCache` for the fetch `f`: `parsed` is None when it failed. */
    method Land(f: FetchId, now: int, parsed: Option<seq<Entry>>, ghost s: State) returns (entries: seq<Entry>)
      requires Shows(s) && Enabled(s, Settle(f, parsed)) && s.fetches[f].startedAt == now
      modifies this
      ensures Shows(Next(s, Settle(f, parsed)))
      ensures cache == Some(Cached(entries, now + (if parsed.Some? && parsed.value != [] then CACHE_TTL_MS else ERROR_BACKOFF_MS)))
    {
      if parsed.None? || |parsed.value| == 0 {
        entries := CacheFallback(now);
        return;
      }
      entries := parsed.value;
      cache := Some(Cached(entries, now + CACHE_TTL_MS));
      lastGood := Some(entries);
      RebuildIndexes(entries);
    }

    /** The `finally` callback of the tracked promise. */
    method ClearInflight(tracked: FetchId, ghost s: State)
      requires Shows(s) && Enabled(s, Finalize(tracked))
      modifies this`inflight
      ensures Shows(Next(s, Finalize(tracked)))
    {
      if inflight == Some(tracked) {
        inflight := None;
      }
    }

    method ResetCache(ghost s: State)
      requires Shows(s)
      modifies this
      ensures Shows(Next(s, Reset))
    {
      cache, lastGood, costByModelId, formatByModelId, inflight := None, None, map[], map[], None;
    }

    /** The cost the last good list gives the model, under its bare or its prefixed name. */
    method GetCostPerRequest(modelId: string) returns (cost: Option<real>)
      ensures var bare := BareModelId(modelId);
        cost == if bare != "" && bare in costByModelId then Some(costByModelId[bare]) else None
    {
      var bare := BareModelId(modelId);
      if bare == "" || bare !in costByModelId { return None; }
      return Some(costByModelId[bare]);
    }
  }

  /** In every reachable state the lookup answers from the last good list: a cost exactly for the
    * models it lists with one. That parsed lists name no model twice is `ParsedIdsAreUnique`. */
  lemma LookupsFollowLastGood(states: seq<State>, events: seq<Event>, j: nat, id: string)
    requires Run(states, events) && j < |states|
    requires forall i | 0 <= i < |events| && events[i].Settle? && events[i].parsed.Some? :: UniqueIds(events[i].parsed.value)
    ensures var listed := states[j].lastGood.GetOr([]);
      && (id in states[j].costs <==> exists i | 0 <= i < |listed| :: listed[i].id == id && listed[i].cost.Some?)
      && (forall i | 0 <= i < |listed| && listed[i].id == id && listed[i].cost.Some? :: states[j].costs[id] == listed[i].cost.value)
      && (id in states[j].formats <==> exists i | 0 <= i < |listed| :: listed[i].id == id)
      && (forall i | 0 <= i < |listed| && listed[i].id == id :: states[j].formats[id] == listed[i].format)
  {
    AlwaysConsistent(states, events, j);
    LastGoodWasParsed(states, events, j);
    IndexesProject(states[j].lastGood.GetOr([]), id);
  }
}
