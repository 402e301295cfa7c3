/** The background image source: an endless pull sequence that fetches a batch of photographs,
    hands them out one at a time in order, and fetches the next batch once the current one is
    used up. The network request is abstract: `fetch(k)` is the batch returned by the k-th
    request, in the order the API returned it. */
module Backgrounds {

  /** What the generator yields for one photograph. */
  type Background = string

  /** Everything the first `k` requests returned, batch after batch. */
  function Fetched(fetch: nat -> seq<Background>, k: nat): (s: seq<Background>)
  {
    if k == 0 then [] else Fetched(fetch, k - 1) + fetch(k - 1)
  }

  /** Some request from the k-th on returns a non-empty batch. */
  ghost predicate NonEmptyFrom(fetch: nat -> seq<Background>, k: nat)
  {
    exists j: nat :: j >= k && fetch(j) != []
  }

  /** The supplier never runs dry for good. */
  ghost predicate Replenishes(fetch: nat -> seq<Background>)
  {
    forall k: nat :: NonEmptyFrom(fetch, k)
  }

  /** Later requests only extend what earlier ones returned. */
  lemma {:induction false} FetchedGrows(fetch: nat -> seq<Background>, j: nat, k: nat)
    requires j <= k
    ensures Fetched(fetch, j) <= Fetched(fetch, k)
  {
    if j < k {
      FetchedGrows(fetch, j, k - 1);
    }
  }

  /** Two consumers of the same supplier, however far each has pulled and however many
      requests each has made, have seen the same stream: the shorter view is a prefix of the
      longer. Batch boundaries and consumer pacing are invisible. */
  lemma PacingIsInvisible(fetch: nat -> seq<Background>, seen1: seq<Background>, k1: nat,
                          seen2: seq<Background>, k2: nat)
    requires seen1 <= Fetched(fetch, k1) && seen2 <= Fetched(fetch, k2)
    requires |seen1| <= |seen2|
    ensures seen1 <= seen2
  {
    if k1 <= k2 {
      FetchedGrows(fetch, k1, k2);
    } else {
      FetchedGrows(fetch, k2, k1);
    }
  }

  /** The generator's state: the batch being handed out and the position in it. */
  class Cursor {
    const fetch: nat -> seq<Background>
    var batch: seq<Background>
    var index: nat
    /** The number of requests made so far. */
    var fetched: nat
    /** Everything handed out so far, in order. */
    ghost var Yielded: seq<Background>

    ghost predicate Valid()
      reads this
    {
      && Replenishes(fetch)
      && index <= |batch|
      && (fetched == 0 ==> batch == [])
      && (fetched > 0 ==> batch == fetch(fetched - 1))
      && Yielded + batch[index..] == Fetched(fetch, fetched)
    }

    /** The generator before its first pull: nothing requested yet. */
    constructor (fetch: nat -> seq<Background>)
      requires Replenishes(fetch)
      ensures Valid() && this.fetch == fetch
      ensures Yielded == [] && fetched == 0
    {
      this.fetch := fetch;
      batch, index, fetched := [], 0, 0;
      Yielded := [];
    }

    /** The inner loop of `backgrounds.next()` once the current batch is used up: request
        batches until one is non-empty. */
    method Refill()
      requires Valid() && index == |batch|
      modifies this
      ensures Valid() && Yielded == old(Yielded)
      ensures fetched > old(fetched) && index == 0 < |batch|
      ensures Fetched(fetch, fetched - 1) == Fetched(fetch, old(fetched))
    {
      assert NonEmptyFrom(fetch, fetched);
      ghost var target :| target >= fetched && fetch(target) != [];
      assert Yielded == Fetched(fetch, fetched);
      while true
        invariant Valid() && Yielded == old(Yielded) && index == |batch|
        invariant old(fetched) <= fetched <= target
        invariant Yielded == Fetched(fetch, fetched)
        decreases target - fetched
      {
        batch := fetch(fetched);
        fetched := fetched + 1;
        index := 0;
        assert batch[0..] == batch;
        if batch != [] {
          break;
        }
        assert Fetched(fetch, fetched) == Fetched(fetch, fetched - 1) + [];
      }
    }

    /** `backgrounds.next()`: the next item of the current batch, or, once it is used up, the
        first item of the next non-empty batch requested. */
    method Next() returns (item: Background)
      requires Valid()
      modifies this
      ensures Valid()
      ensures Yielded == old(Yielded) + [item]
      ensures Yielded <= Fetched(fetch, fetched)
      ensures old(index) < |old(batch)| ==> fetched == old(fetched) && item == old(batch)[old(index)]
      ensures old(index) == |old(batch)| ==>
                && fetched > old(fetched)
                && Fetched(fetch, fetched - 1) == Fetched(fetch, old(fetched))
                && fetch(fetched - 1) != [] && item == fetch(fetched - 1)[0]
    {
      if index == |batch| {
        Refill();
      }
      item := batch[index];
      assert batch[index..] == [item] + batch[index + 1..];
      index, Yielded := index + 1, Yielded + [item];
    }
  }
}
