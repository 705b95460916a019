/** Resolving a chart against an ordered list of repositories, with an index cache per URL. */
module ChartResolver {
  import opened Collections

  datatype Repository = Repository(name: string, url: string)

  /** The versions an index lists for each chart. */
  type Index = map<string, seq<string>>

  /** Indexes by repository URL: those that can be fetched, or those that are cached. */
  type Indexes = map<string, Index>

  datatype Resolution =
    | Resolved(repository: Repository)
    | VersionNotFound(repository: Repository)
    | AllUnreachable(skipped: seq<string>)
    | ChartNotFound(skipped: seq<string>)

  predicate Lists(index: Index, chart: string) {
    chart in index && index[chart] != []
  }

  /** The first repository that lists the chart decides; `None` if none does. */
  function Winner(repos: seq<Repository>, available: Indexes, chart: string): (r: Option<Repository>)
    ensures r.Some? ==> r.value in repos && r.value.url in available && Lists(available[r.value.url], chart)
  {
    if repos == [] then None
    else if repos[0].url in available && Lists(available[repos[0].url], chart) then Some(repos[0])
    else Winner(repos[1..], available, chart)
  }

  function Unreachable(repos: seq<Repository>, available: Indexes): (r: seq<string>)
    ensures |r| <= |repos|
  {
    if repos == [] then []
    else (if repos[0].url in available then [] else [repos[0].name]) + Unreachable(repos[1..], available)
  }

  /** The plain ordered search: no cache, just the indexes that are available. */
  function Search(repos: seq<Repository>, available: Indexes, chart: string, version: Option<string>): (r: Resolution) {
    var winner := Winner(repos, available, chart);
    if winner.Some? then
      if version.Some? && version.value !in available[winner.value.url][chart] then VersionNotFound(winner.value)
      else Resolved(winner.value)
    else
      var skipped := Unreachable(repos, available);
      if skipped != [] && |skipped| == |repos| then AllUnreachable(skipped) else ChartNotFound(skipped)
  }

  /** What a search can see: fetched indexes, except where a cached one is at hand. */
  function Visible(fetched: Indexes, cached: Indexes): (r: Indexes) {
    fetched + cached
  }

  /** The cache after a search that walks `repos` until one lists the chart. */
  function CachedAfter(repos: seq<Repository>, fetched: Indexes, cached: Indexes, chart: string): (r: Indexes)
    decreases |repos|
  {
    if repos == [] then cached
    else
      var url := repos[0].url;
      if url !in fetched && url !in cached then CachedAfter(repos[1..], fetched, cached, chart)
      else
        var grown := if url in cached then cached else cached[url := fetched[url]];
        if Lists(grown[url], chart) then grown else CachedAfter(repos[1..], fetched, grown, chart)
  }

  /** A search over `repos` that has come to `rest`, having skipped `unreachable` and cached `now`. */
  predicate OnTheWay(repos: seq<Repository>, cached: Indexes, rest: seq<Repository>, now: Indexes,
                     unreachable: seq<string>, fetched: Indexes, chart: string)
  {
    var visible := Visible(fetched, cached);
    && Visible(fetched, now) == visible
    && Winner(rest, visible, chart) == Winner(repos, visible, chart)
    && unreachable + Unreachable(rest, visible) == Unreachable(repos, visible)
    && CachedAfter(rest, fetched, now, chart) == CachedAfter(repos, fetched, cached, chart)
  }

  /** The search passes a repository that can neither be fetched nor is cached. */
  lemma OnwardPast(repos: seq<Repository>, cached: Indexes, rest: seq<Repository>, now: Indexes,
                   unreachable: seq<string>, fetched: Indexes, chart: string)
    requires rest != [] && OnTheWay(repos, cached, rest, now, unreachable, fetched, chart)
    requires rest[0].url !in now && rest[0].url !in fetched
    ensures OnTheWay(repos, cached, rest[1..], now, unreachable + [rest[0].name], fetched, chart)
  {
    var visible := Visible(fetched, cached);
    assert rest[0].url !in visible by { assert visible == Visible(fetched, now); }
    var further := Unreachable(rest[1..], visible);
    assert unreachable + ([rest[0].name] + further) == (unreachable + [rest[0].name]) + further;
  }

  /** The cache once the repository at `url`, which can be fetched or is cached, has been looked at. */
  function Grown(now: Indexes, fetched: Indexes, url: string): (r: Indexes)
    requires url in now || url in fetched
    ensures url in r && Visible(fetched, r) == Visible(fetched, now) && r[url] == Visible(fetched, now)[url]
  {
    if url in now then now
    else
      assert Visible(fetched, now[url := fetched[url]]) == Visible(fetched, now);
      now[url := fetched[url]]
  }

  /** It ends at a repository whose index lists the chart. */
  lemma OnwardHit(repos: seq<Repository>, cached: Indexes, rest: seq<Repository>, now: Indexes,
                  unreachable: seq<string>, fetched: Indexes, chart: string)
    requires rest != [] && OnTheWay(repos, cached, rest, now, unreachable, fetched, chart)
    requires rest[0].url in now || rest[0].url in fetched
    requires Lists(Grown(now, fetched, rest[0].url)[rest[0].url], chart)
    ensures Winner(repos, Visible(fetched, cached), chart) == Some(rest[0])
    ensures CachedAfter(repos, fetched, cached, chart) == Grown(now, fetched, rest[0].url)
  {
  }

  /** And goes on past one whose index does not. */
  lemma OnwardMiss(repos: seq<Repository>, cached: Indexes, rest: seq<Repository>, now: Indexes,
                   unreachable: seq<string>, fetched: Indexes, chart: string)
    requires rest != [] && OnTheWay(repos, cached, rest, now, unreachable, fetched, chart)
    requires rest[0].url in now || rest[0].url in fetched
    requires !Lists(Grown(now, fetched, rest[0].url)[rest[0].url], chart)
    ensures OnTheWay(repos, cached, rest[1..], Grown(now, fetched, rest[0].url), unreachable, fetched, chart)
  {
    assert [] + Unreachable(rest[1..], Visible(fetched, cached)) == Unreachable(rest[1..], Visible(fetched, cached));
  }

  class Resolver {
    const repositories: seq<Repository>
    var indexes: Indexes

    constructor (repositories: seq<Repository>)
      ensures this.repositories == repositories && indexes == map[]
    {
      this.repositories, indexes := repositories, map[];
    }

    /** `fetched`: what each repository that can be reached during this call would return. */
    method Resolve(chart: string, version: Option<string>, fetched: Indexes) returns (r: Resolution)
      modifies this
      ensures r == Search(repositories, Visible(fetched, old(indexes)), chart, version)
      ensures indexes == CachedAfter(repositories, fetched, old(indexes), chart)
    {
      var unreachable: seq<string> := [];
      var rest := repositories;
      while rest != []
        invariant OnTheWay(repositories, old(indexes), rest, indexes, unreachable, fetched, chart)
        decreases |rest|
      {
        var repository := rest[0];
        ghost var ahead, now := rest, indexes;
        rest := rest[1..];
        if repository.url !in indexes {
          if repository.url !in fetched {
            OnwardPast(repositories, old(indexes), ahead, now, unreachable, fetched, chart);
            unreachable := unreachable + [repository.name];
            continue;
          }
          indexes := indexes[repository.url := fetched[repository.url]];
        }
        var index := indexes[repository.url];
        if !Lists(index, chart) {
          OnwardMiss(repositories, old(indexes), ahead, now, unreachable, fetched, chart);
          continue;
        }
        OnwardHit(repositories, old(indexes), ahead, now, unreachable, fetched, chart);
        if version.Some? && version.value !in index[chart] { return VersionNotFound(repository); }
        return Resolved(repository);
      }
      assert unreachable + [] == unreachable;
      return if unreachable != [] && |unreachable| == |repositories| then AllUnreachable(unreachable)
        else ChartNotFound(unreachable);
    }

    method ClearCache()
      modifies this
      ensures indexes == map[]
    {
      indexes := map[];
    }
  }

  /*** the cache refines the search ***/

  /** The part of `world` held by the repositories in `reach`. */
  function Reachable(world: Indexes, reach: set<string>): (r: Indexes) {
    map u | u in world && u in reach :: world[u]
  }

  /** Every cached index is the one the world still has. */
  predicate Current(world: Indexes, cached: Indexes) {
    forall u | u in cached :: u in world && cached[u] == world[u]
  }

  /**
   * With unchanging index contents, resolving with cached URLs C and reachable URLs R gives exactly
   * the result, skipped repositories included, of the plain search with R + C reachable.
   */
  lemma CacheRefinesSearch(repos: seq<Repository>, world: Indexes, reach: set<string>, cached: Indexes,
                           chart: string, version: Option<string>)
    requires Current(world, cached)
    ensures Search(repos, Visible(Reachable(world, reach), cached), chart, version)
            == Search(repos, Reachable(world, reach + cached.Keys), chart, version)
  {
    assert Visible(Reachable(world, reach), cached) == Reachable(world, reach + cached.Keys);
  }

  lemma {:induction false} CacheGrows(repos: seq<Repository>, fetched: Indexes, cached: Indexes, chart: string)
    ensures forall u | u in cached ::
              u in CachedAfter(repos, fetched, cached, chart)
              && CachedAfter(repos, fetched, cached, chart)[u] == cached[u]
    ensures forall u | u in CachedAfter(repos, fetched, cached, chart) && u !in cached ::
              u in fetched && CachedAfter(repos, fetched, cached, chart)[u] == fetched[u]
    decreases |repos|
  {
    if repos != [] {
      var url := repos[0].url;
      if url !in fetched && url !in cached {
        CacheGrows(repos[1..], fetched, cached, chart);
      } else {
        var grown := if url in cached then cached else cached[url := fetched[url]];
        if !Lists(grown[url], chart) { CacheGrows(repos[1..], fetched, grown, chart); }
      }
    }
  }

  /** The cache stays current as long as the world does not change. */
  lemma CacheStaysCurrent(repos: seq<Repository>, world: Indexes, reach: set<string>, cached: Indexes, chart: string)
    requires Current(world, cached)
    ensures Current(world, CachedAfter(repos, Reachable(world, reach), cached, chart))
  {
    CacheGrows(repos, Reachable(world, reach), cached, chart);
  }

  /*** stability ***/

  datatype Call = ResolveCall(chart: string, version: Option<string>, fetched: Indexes) | ClearCall

  function After(repos: seq<Repository>, call: Call, cached: Indexes): (r: Indexes) {
    match call
    case ResolveCall(chart, _, fetched) => CachedAfter(repos, fetched, cached, chart)
    case ClearCall => map[]
  }

  function Run(repos: seq<Repository>, calls: seq<Call>, cached: Indexes): (r: Indexes)
    decreases |calls|
  {
    if calls == [] then cached else Run(repos, calls[1..], After(repos, calls[0], cached))
  }

  /** Every repository up to the one at `k` is cached, and that one is the first to list the chart. */
  predicate Pinned(repos: seq<Repository>, cached: Indexes, chart: string, k: nat) {
    && k < |repos|
    && (forall i | 0 <= i <= k :: repos[i].url in cached)
    && (forall i | 0 <= i < k :: !Lists(cached[repos[i].url], chart))
    && Lists(cached[repos[k].url], chart)
  }

  lemma {:induction false} PinnedWins(repos: seq<Repository>, fetched: Indexes, cached: Indexes, chart: string, k: nat)
    requires Pinned(repos, cached, chart, k)
    ensures Winner(repos, Visible(fetched, cached), chart) == Some(repos[k])
    decreases k
  {
    assert repos[0].url in cached;
    if k > 0 {
      forall i | 0 <= i <= k - 1 ensures repos[1..][i] == repos[i + 1] {}
      assert Pinned(repos[1..], cached, chart, k - 1);
      PinnedWins(repos[1..], fetched, cached, chart, k - 1);
    }
  }

  lemma {:induction false} StaysPinned(repos: seq<Repository>, calls: seq<Call>, cached: Indexes, chart: string, k: nat)
    requires Pinned(repos, cached, chart, k) && forall c | c in calls :: c.ResolveCall?
    ensures Pinned(repos, Run(repos, calls, cached), chart, k)
    ensures Run(repos, calls, cached)[repos[k].url] == cached[repos[k].url]
    decreases |calls|
  {
    if calls != [] {
      assert calls[0] in calls;
      CacheGrows(repos, calls[0].fetched, cached, calls[0].chart);
      StaysPinned(repos, calls[1..], After(repos, calls[0], cached), chart, k);
    }
  }

  /**
   * Once every repository up to the winner is cached, the chart keeps resolving to it through any
   * further calls, whatever becomes unreachable or changes meanwhile, until the cache is cleared.
   */
  lemma PinnedChartKeepsResolving(repos: seq<Repository>, calls: seq<Call>, cached: Indexes, chart: string, k: nat,
                                  version: Option<string>, fetched: Indexes)
    requires Pinned(repos, cached, chart, k) && forall c | c in calls :: c.ResolveCall?
    requires version.Some? ==> version.value in cached[repos[k].url][chart]
    ensures Search(repos, Visible(fetched, Run(repos, calls, cached)), chart, version) == Resolved(repos[k])
  {
    StaysPinned(repos, calls, cached, chart, k);
    PinnedWins(repos, fetched, Run(repos, calls, cached), chart, k);
  }

  /** A call that reaches every repository up to the winner pins the chart. */
  lemma {:induction false} ReachingCallPins(repos: seq<Repository>, fetched: Indexes, cached: Indexes, chart: string,
                                            k: nat)
    requires Pinned(repos, Visible(fetched, cached), chart, k)
    ensures Pinned(repos, CachedAfter(repos, fetched, cached, chart), chart, k)
    decreases k
  {
    var url := repos[0].url;
    assert url in Visible(fetched, cached);
    var grown := if url in cached then cached else cached[url := fetched[url]];
    assert grown[url] == Visible(fetched, cached)[url];
    if k > 0 {
      assert Visible(fetched, grown) == Visible(fetched, cached);
      forall i | 0 <= i <= k - 1 ensures repos[1..][i] == repos[i + 1] {}
      assert Pinned(repos[1..], Visible(fetched, grown), chart, k - 1);
      ReachingCallPins(repos[1..], fetched, grown, chart, k - 1);
      var after := CachedAfter(repos[1..], fetched, grown, chart);
      CacheGrows(repos[1..], fetched, grown, chart);
      assert CachedAfter(repos, fetched, cached, chart) == after;
      forall i | 0 <= i <= k
        ensures repos[i].url in after
        ensures Lists(after[repos[i].url], chart) <==> i == k
      {
        if i > 0 { assert repos[i] == repos[1..][i - 1]; }
      }
    }
  }
}
