/** The LFU bookkeeping of `InMemorySemanticCache` in cache_tools/cache.py. Embeddings and
    cosine similarity are not modelled: a query's similarity to each cached slot is given as a
    function of the slot's query text. */
module Cache {
  import opened Options

  /** An `LFUSlot`: the cached query, its response and how often it has been served. */
  datatype LFUSlot = LFUSlot(query: string, response: string, usageCount: nat)

  /** The index of the first slot of least usage. */
  function LeastUsed(c: seq<LFUSlot>): (r: nat)
    requires c != []
    ensures r < |c|
    ensures forall j :: 0 <= j < |c| ==> c[r].usageCount <= c[j].usageCount
    ensures forall j :: 0 <= j < r ==> c[j].usageCount > c[r].usageCount
    decreases |c|
  {
    if |c| == 1 then 0
    else
      var m := 1 + LeastUsed(c[1..]);
      assert forall j :: 1 <= j < |c| ==> c[j] == c[1..][j - 1];
      if c[0].usageCount <= c[m].usageCount then 0 else m
  }

  /** The slots are in non-decreasing order of usage. */
  predicate UsageSorted(s: seq<LFUSlot>) {
    forall i, j :: 0 <= i < j < |s| ==> s[i].usageCount <= s[j].usageCount
  }

  /** `x` put in front of the first slot of `s` whose usage is at least its own. */
  function InsertByUsage(x: LFUSlot, s: seq<LFUSlot>): (r: seq<LFUSlot>)
    ensures multiset(r) == multiset(s) + multiset{x}
    ensures r[0] == if s == [] || x.usageCount <= s[0].usageCount then x else s[0]
    decreases |s|
  {
    if s == [] || x.usageCount <= s[0].usageCount then [x] + s
    else
      assert s == [s[0]] + s[1..];
      [s[0]] + InsertByUsage(x, s[1..])
  }

  /** Inserting into a sorted list keeps it sorted. */
  lemma {:induction false} InsertSorted(x: LFUSlot, s: seq<LFUSlot>)
    requires UsageSorted(s)
    ensures UsageSorted(InsertByUsage(x, s))
    decreases |s|
  {
    if !(s == [] || x.usageCount <= s[0].usageCount) {
      InsertSorted(x, s[1..]);
      InsertLowerBound(x, s[1..], s[0].usageCount);
    }
  }

  /** A bound below `x` and every slot of `s` is below every slot after the insertion. */
  lemma {:induction false} InsertLowerBound(x: LFUSlot, s: seq<LFUSlot>, b: nat)
    requires b <= x.usageCount && forall k :: 0 <= k < |s| ==> b <= s[k].usageCount
    ensures forall k :: 0 <= k < |InsertByUsage(x, s)| ==> b <= InsertByUsage(x, s)[k].usageCount
    decreases |s|
  {
    if !(s == [] || x.usageCount <= s[0].usageCount) {
      InsertLowerBound(x, s[1..], b);
    }
  }

  /** `cache.sort(key=lambda x: x.usage_count)`: a sort by usage, stable by `SortByUsageStable`. */
  function SortByUsage(c: seq<LFUSlot>): (r: seq<LFUSlot>)
    ensures multiset(r) == multiset(c) && |r| == |c|
    ensures UsageSorted(r)
    decreases |c|
  {
    if c == [] then []
    else
      var rest := SortByUsage(c[1..]);
      assert c == [c[0]] + c[1..];
      InsertSorted(c[0], rest);
      assert |multiset(InsertByUsage(c[0], rest))| == |c|;
      InsertByUsage(c[0], rest)
  }

  /** The slot the sort puts first is the earliest of the least used. */
  lemma {:induction false} SortByUsageHead(c: seq<LFUSlot>)
    requires c != []
    ensures SortByUsage(c)[0] == c[LeastUsed(c)]
    decreases |c|
  {
    if |c| > 1 {
      SortByUsageHead(c[1..]);
      assert c[1..][LeastUsed(c[1..])] == c[1 + LeastUsed(c[1..])];
    }
  }

  /** The slots of `s` whose usage is `u`, in their order in `s`. */
  function WithUsage(s: seq<LFUSlot>, u: nat): seq<LFUSlot>
    decreases |s|
  {
    if s == [] then []
    else (if s[0].usageCount == u then [s[0]] else []) + WithUsage(s[1..], u)
  }

  /** Inserting `x` before the first slot of usage at least its own passes only slots of lower
      usage, so slots of any one usage keep their order. */
  lemma {:induction false} InsertByUsageStable(x: LFUSlot, s: seq<LFUSlot>, u: nat)
    ensures WithUsage(InsertByUsage(x, s), u) == WithUsage([x] + s, u)
    decreases |s|
  {
    if !(s == [] || x.usageCount <= s[0].usageCount) {
      InsertByUsageStable(x, s[1..], u);
      var hx := if x.usageCount == u then [x] else [];
      var h0 := if s[0].usageCount == u then [s[0]] else [];
      var rest := WithUsage(s[1..], u);
      assert ([s[0]] + InsertByUsage(x, s[1..]))[1..] == InsertByUsage(x, s[1..]);
      assert ([x] + s[1..])[1..] == s[1..];
      assert ([x] + s)[1..] == s;
      assert hx == [] || h0 == [];
      assert WithUsage([x] + s, u) == hx + (h0 + rest);
      assert WithUsage(InsertByUsage(x, s), u) == h0 + (hx + rest);
    }
  }

  /** `list.sort` is stable: the slots of each usage are in the same order before and after. */
  lemma {:induction false} SortByUsageStable(c: seq<LFUSlot>, u: nat)
    ensures WithUsage(SortByUsage(c), u) == WithUsage(c, u)
    decreases |c|
  {
    if c != [] {
      SortByUsageStable(c[1..], u);
      InsertByUsageStable(c[0], SortByUsage(c[1..]), u);
      assert ([c[0]] + SortByUsage(c[1..]))[1..] == SortByUsage(c[1..]);
    }
  }

  /** `add_to_cache` on the slot list: `None` when `pop(0)` raises `IndexError` on an empty
      list, which happens only when `max_cache_size <= 0`. */
  function Added(c: seq<LFUSlot>, maxCacheSize: int, query: string, response: string): (r: Option<seq<LFUSlot>>)
    ensures r.None? <==> c == [] && maxCacheSize <= 0
    ensures r.Some? ==> |r.value| > 0 && r.value[|r.value| - 1] == LFUSlot(query, response, 0)
    ensures |c| < maxCacheSize ==> r == Some(c + [LFUSlot(query, response, 0)])
    ensures |c| >= maxCacheSize && c != [] ==>
      && r.Some?
      && |r.value| == |c|
      && multiset(r.value) == multiset(c) - multiset{c[LeastUsed(c)]} + multiset{LFUSlot(query, response, 0)}
  {
    var slot := LFUSlot(query, response, 0);
    if |c| >= maxCacheSize then
      var sorted := SortByUsage(c);
      if sorted == [] then None
      else
        assert sorted == [sorted[0]] + sorted[1..];
        SortByUsageHead(c);
        Some(sorted[1..] + [slot])
    else Some(c + [slot])
  }

  /** Eviction leaves the surviving slots in the order of the sort: by usage, least used
      first. */
  lemma EvictionKeepsUsageOrder(c: seq<LFUSlot>, maxCacheSize: int, query: string, response: string)
    requires |c| >= maxCacheSize && c != []
    ensures UsageSorted(Added(c, maxCacheSize, query, response).value[..|c| - 1])
  {
    var sorted := SortByUsage(c);
    var r := Added(c, maxCacheSize, query, response).value;
    assert r == sorted[1..] + [LFUSlot(query, response, 0)];
    assert r[..|c| - 1] == sorted[1..];
  }

  /** With room for at least one slot, adding never fails and never takes the cache past
      `max_cache_size`. */
  lemma AddedKeepsBound(c: seq<LFUSlot>, maxCacheSize: int, query: string, response: string)
    requires 1 <= maxCacheSize && |c| <= maxCacheSize
    ensures Added(c, maxCacheSize, query, response).Some?
    ensures |Added(c, maxCacheSize, query, response).value| <= maxCacheSize
  {
  }

  /** The index `i` with the largest `(score, i)`: the head of `scored_entries` after
      `sort(reverse=True)`, so ties go to the later slot. */
  function Top(c: seq<LFUSlot>, sim: string -> real): (r: nat)
    requires c != []
    ensures r < |c|
    ensures forall j :: 0 <= j < |c| ==> sim(c[j].query) <= sim(c[r].query)
    ensures forall j :: r < j < |c| ==> sim(c[j].query) < sim(c[r].query)
    decreases |c|
  {
    if |c| == 1 then 0
    else
      var n := |c| - 1;
      var m := Top(c[..n], sim);
      assert forall j :: 0 <= j < n ==> c[..n][j] == c[j];
      if sim(c[n].query) >= sim(c[m].query) then n else m
  }

  /** `len(xs[:k])` for a list of length `n`. */
  function Taken(k: int, n: nat): nat {
    if k >= 0 then (if k < n then k else n)
    else if n + k > 0 then n + k
    else 0
  }

  /** The slot `query_cache` answers from: scanning `scored_entries[:k]` best first, the first
      entry at or above the threshold is the best one or none is, so the answer is the top slot
      when the scan is not empty and that slot is similar enough. */
  function Lookup(c: seq<LFUSlot>, sim: string -> real, threshold: real, k: int): (r: Option<nat>)
    ensures r.Some? ==> r.value < |c| && sim(c[r.value].query) >= threshold
    ensures r.Some? ==> forall j :: 0 <= j < |c| ==> sim(c[j].query) <= sim(c[r.value].query)
    ensures r.Some? ==> forall j :: r.value < j < |c| ==> sim(c[j].query) < sim(c[r.value].query)
    ensures r.None? <==> c == [] || Taken(k, |c|) == 0 || forall j :: 0 <= j < |c| ==> sim(c[j].query) < threshold
  {
    if c == [] || Taken(k, |c|) == 0 then None
    else
      var t := Top(c, sim);
      if sim(c[t].query) >= threshold then Some(t) else None
  }

  /** When an empty cached response made `get_or_generate_response` cache the query again, the
      later slot for that query has the same score, so the earlier one is never served again. */
  lemma LaterDuplicateServed(c: seq<LFUSlot>, sim: string -> real, threshold: real, k: int, i: nat, j: nat)
    requires i < j < |c| && c[i].query == c[j].query
    ensures Lookup(c, sim, threshold, k) != Some(i)
  {
  }

  /** `cache[i].usage_count += 1` */
  function Bump(c: seq<LFUSlot>, i: nat): (r: seq<LFUSlot>)
    requires i < |c|
  {
    c[i := c[i].(usageCount := c[i].usageCount + 1)]
  }

  /** `query_cache` on the slot list: the slots after the call and the response returned. A hit
      serves the chosen slot's response and counts one more use of that slot and of no other;
      a miss changes nothing. */
  function QueryStep(c: seq<LFUSlot>, sim: string -> real, threshold: real, k: int): (r: (seq<LFUSlot>, Option<string>))
    ensures |r.0| == |c|
    ensures forall j :: 0 <= j < |c| ==> r.0[j].query == c[j].query && r.0[j].response == c[j].response
    ensures match Lookup(c, sim, threshold, k)
      case Some(i) =>
        && r.1 == Some(c[i].response)
        && r.0[i].usageCount == c[i].usageCount + 1
        && forall j :: 0 <= j < |c| && j != i ==> r.0[j] == c[j]
      case None => r == (c, None)
  {
    match Lookup(c, sim, threshold, k)
    case Some(i) => (Bump(c, i), Some(c[i].response))
    case None => (c, None)
  }

  /** The default `k` of `query_cache`, as `get_or_generate_response` calls it. */
  const DEFAULT_K: int := 3

  /** The state `get_or_generate_response` works on. */
  datatype CacheState = CacheState(cache: seq<LFUSlot>, sessionLog: seq<(string, string)>)

  /** The state after `get_or_generate_response`, the text it returned (`None` when
      `add_to_cache` raised), and whether it called the generator. */
  datatype Response = Response(state: CacheState, answer: Option<string>, generated: bool)

  /** `get_or_generate_response(query, fallback_generator)`: a non-empty cached response is
      served; otherwise the generator's answer is cached and served. Either way the pair is
      logged once. */
  function Respond(st: CacheState, maxCacheSize: int, threshold: real, query: string,
                   sim: string -> real, generate: string -> string): (r: Response)
    ensures var (c1, cached) := QueryStep(st.cache, sim, threshold, DEFAULT_K);
      && (r.generated <==> cached.None? || cached.value == "")
      && (!r.generated ==> r.answer == cached && r.state.cache == c1)
    ensures r.answer.Some? ==> r.state.sessionLog == st.sessionLog + [(query, r.answer.value)]
    ensures r.answer.None? ==> r.generated && r.state.sessionLog == st.sessionLog
    ensures r.generated && r.answer.Some? ==>
      && r.answer.value == generate(query)
      && r.state.cache != []
      && r.state.cache[|r.state.cache| - 1] == LFUSlot(query, generate(query), 0)
  {
    var (c1, cached) := QueryStep(st.cache, sim, threshold, DEFAULT_K);
    if cached.Some? && cached.value != "" then
      Response(CacheState(c1, st.sessionLog + [(query, cached.value)]), cached, false)
    else
      var answer := generate(query);
      match Added(c1, maxCacheSize, query, answer)
      case None => Response(CacheState(c1, st.sessionLog), None, true)
      case Some(c2) => Response(CacheState(c2, st.sessionLog + [(query, answer)]), Some(answer), true)
  }

  /** A cache that starts within `max_cache_size >= 1` stays within it, and every call then
      answers and logs exactly one pair. */
  lemma RespondKeepsBound(st: CacheState, maxCacheSize: int, threshold: real, query: string,
                          sim: string -> real, generate: string -> string)
    requires 1 <= maxCacheSize && |st.cache| <= maxCacheSize
    ensures var r := Respond(st, maxCacheSize, threshold, query, sim, generate);
      && r.answer.Some?
      && |r.state.cache| <= maxCacheSize
      && |r.state.sessionLog| == |st.sessionLog| + 1
  {
    var (c1, cached) := QueryStep(st.cache, sim, threshold, DEFAULT_K);
    AddedKeepsBound(c1, maxCacheSize, query, generate(query));
  }

  /** `InMemorySemanticCache`. */
  class InMemorySemanticCache {
    const similarityThreshold: real
    const maxCacheSize: int
    var cache: seq<LFUSlot>
    var sessionLog: seq<(string, string)>

    function State(): CacheState
      reads this
    {
      CacheState(cache, sessionLog)
    }

    constructor (similarityThreshold: real, maxCacheSize: int)
      ensures this.similarityThreshold == similarityThreshold && this.maxCacheSize == maxCacheSize
      ensures cache == [] && sessionLog == []
    {
      this.similarityThreshold := similarityThreshold;
      this.maxCacheSize := maxCacheSize;
      cache, sessionLog := [], [];
    }

    /** `add_to_cache(query, response)`: when full, sort by usage and drop the first slot, then
        append a fresh slot. `raised` reports the `IndexError` of `pop(0)` on an empty list. */
    method AddToCache(query: string, response: string) returns (raised: bool)
      modifies this
      ensures raised <==> Added(old(cache), maxCacheSize, query, response).None?
      ensures !raised ==> cache == Added(old(cache), maxCacheSize, query, response).value
      ensures raised ==> cache == old(cache)
      ensures sessionLog == old(sessionLog)
    {
      if |cache| >= maxCacheSize {
        cache := SortByUsage(cache);
        if cache == [] {
          return true;
        }
        cache := cache[1..];
      }
      cache := cache + [LFUSlot(query, response, 0)];
      return false;
    }

    /** `query_cache(query, k)`: scores every slot, and serves the best one if the slice
        `[:k]` keeps it and it reaches the threshold. */
    method QueryCache(query: string, sim: string -> real, k: int) returns (r: Option<string>)
      modifies this
      ensures (cache, r) == QueryStep(old(cache), sim, similarityThreshold, k)
      ensures sessionLog == old(sessionLog)
    {
      if cache == [] {
        return None;
      }
      var best := 0;
      var i := 1;
      while i < |cache|
        invariant 1 <= i <= |cache| && best == Top(cache[..i], sim)
      {
        assert cache[..i + 1][..i] == cache[..i];
        if sim(cache[i].query) >= sim(cache[best].query) {
          best := i;
        }
        i := i + 1;
      }
      assert cache[..i] == cache;
      if Taken(k, |cache|) >= 1 && sim(cache[best].query) >= similarityThreshold {
        r := Some(cache[best].response);
        cache := Bump(cache, best);
        return;
      }
      return None;
    }

    /** `get_or_generate_response(query, fallback_generator)`; `generated` tells whether the
        generator was called. */
    method GetOrGenerateResponse(query: string, sim: string -> real, generate: string -> string)
      returns (answer: Option<string>, generated: bool)
      modifies this
      ensures Response(State(), answer, generated)
        == Respond(old(State()), maxCacheSize, similarityThreshold, query, sim, generate)
    {
      var cached := QueryCache(query, sim, DEFAULT_K);
      if cached.Some? && cached.value != "" {
        sessionLog := sessionLog + [(query, cached.value)];
        return cached, false;
      }
      var newResponse := generate(query);
      var raised := AddToCache(query, newResponse);
      if raised {
        return None, true;
      }
      sessionLog := sessionLog + [(query, newResponse)];
      return Some(newResponse), true;
    }
  }
}
