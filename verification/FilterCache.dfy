/** internal/filter/cache.go: `Parse` reads through the cache of parsed filters. */
module FilterCache {
  import opened Text
  import opened FilterAst
  import opened FilterParser
  import opened CacheSpec
  import opened CacheShard
  import C = Cache
  import F = CacheFlight

  const CAPACITY := 4096

  class AstCache {
    const cache: C.Cache<string, Node>

    /** Every cached tree is what its own source parses to. */
    ghost predicate Valid()
      reads cache.shards, cache.Owned()
    {
      cache.Valid() && cache.ttl == 0 && forall i | 0 <= i < |cache.shards| :: F.Answers(cache.View(i), ParseSource)
    }

    constructor (hash: string -> nat)
      ensures Valid() && fresh(cache.Owned()) && |cache.shards| >= 16
    {
      cache := new C.Cache(CAPACITY, 0, 0, hash);
    }

    lemma ShardOf(k: string)
      requires cache.Valid()
      ensures cache.ShardFor(k) < |cache.shards| && Distinct(cache.View(cache.ShardFor(k)))
    {
      C.MaskSelects(cache.hash(k), |cache.shards|);
      var i := cache.ShardFor(k);
      assert cache.ShardValid(i);
      cache.shards[i].Found(k);
    }

    method Look(src: string, now: int) returns (hit: Option<Node>)
      requires Valid()
      modifies cache.Owned()
      ensures Valid() && fresh(cache.Owned() - old(cache.Owned()))
      ensures hit.Some? ==> ParseSource(src) == Ok(hit.value)
    {
      hide ParseSource, C.Cache.View, Lookup, F.Answers, Shard.Valid;
      ghost var i := cache.ShardFor(src);
      ShardOf(src);
      F.LookupAnswers(cache.View(i), src, now, ParseSource);
      hit := cache.Get(src, now);
    }

    method Keep(src: string, n: Node, now: int)
      requires Valid() && ParseSource(src) == Ok(n)
      modifies cache.Owned()
      ensures Valid() && fresh(cache.Owned() - old(cache.Owned()))
    {
      hide ParseSource, C.Cache.View, Store, F.Answers, Shard.Valid;
      ghost var i := cache.ShardFor(src);
      ShardOf(src);
      F.StoreAnswers(cache.View(i), src, n, 0, now, cache.perShard, ParseSource);
      var _ := cache.Set(src, n, now);
    }

    /** One caller alone: the cached tree, or the tree parsed now and kept; an error is not kept. */
    method Parse(src: string, now: int) returns (r: Result<Option<Node>, PositionedError>)
      requires Valid()
      modifies cache.Owned()
      ensures Valid() && fresh(cache.Owned() - old(cache.Owned()))
      ensures src == "" ==> r == Ok(None)
      ensures src != "" ==> r == match ParseSource(src) { case Ok(n) => Ok(Some(n)) case Err(e) => Err(e) }
    {
      hide ParseSource;
      if src == "" {
        return Ok(None);
      }
      var hit := Look(src, now);
      if hit.Some? {
        return Ok(Some(hit.value));
      }
      var parsed := ParseUncached(src);
      if parsed.Err? {
        return Err(parsed.error);
      }
      Keep(src, parsed.value, now);
      r := Ok(Some(parsed.value));
    }
  }

  /** Any number of callers, interleaved with purges and evictions: each gets
      exactly what the uncached parser gives for its own source. */
  lemma {:induction false} ParseIsTransparent(
      callers: nat, steps: seq<F.Step<string, Node, PositionedError>>, cap: nat, t: nat)
    requires F.PureRun(F.Start(callers, 0), steps, 0, cap, ParseSource)
    ensures var end := F.Run(F.Start<string, Node, PositionedError>(callers, 0), steps, 0, cap);
            t < |end.callers| && end.callers[t].Returned? ==> end.callers[t].outcome == ParseSource(end.callers[t].k)
  {
    hide F.Run, F.PureRun, ParseSource;
    F.StartSound<string, Node, PositionedError>(callers, 0);
    F.CachingIsInvisible(F.Start(callers, 0), steps, 0, cap, ParseSource);
  }
}
