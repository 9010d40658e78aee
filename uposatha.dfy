/**
 * The Uposatha ritual of the brain service (packages/brain/rituals/uposatha.py):
 * gems of the memory vault that are both old and rarely used are released.
 */
module Uposatha {
  import opened Wrappers

  /**
   * A gem's metadata, already decoded: its age in whole days (absent when
   * `last_synced` is missing or does not parse) and its usage count.
   */
  datatype GemMeta = GemMeta(ageDays: Option<int>, usageCount: Option<int>)

  /** A gem of the vault collection as listing returns it. */
  datatype Gem = Gem(id: string, meta: GemMeta)

  /** What the ritual reports. */
  datatype RitualResult = RitualResult(status: string, deletedCount: nat)

  const RETENTION_DAYS: int := 15
  const MIN_USAGE_THRESHOLD: int := 3

  /** A gem without a usable timestamp counts as synced now, so its age is 0. */
  function AgeOf(meta: GemMeta): int
  {
    match meta.ageDays
    case None => 0
    case Some(d) => d
  }

  /** A missing usage count counts as 0. */
  function UsageOf(meta: GemMeta): int
  {
    match meta.usageCount
    case None => 0
    case Some(u) => u
  }

  /** The criterion of forgetting: strictly older than the retention period and strictly below the usage threshold. */
  predicate Phantom(meta: GemMeta, retentionDays: int, minUsage: int)
  {
    AgeOf(meta) > retentionDays && UsageOf(meta) < minUsage
  }

  /** The ids the judgment loop marks, in listing order. */
  function MarkedIds(gems: seq<Gem>, retentionDays: int, minUsage: int): (ids: seq<string>)
    ensures |ids| <= |gems|
    ensures forall x :: x in ids <==> exists g :: g in gems && g.id == x && Phantom(g.meta, retentionDays, minUsage)
  {
    if gems == [] then []
    else
      var rest := MarkedIds(gems[1..], retentionDays, minUsage);
      assert forall g :: g in gems <==> g == gems[0] || g in gems[1..] by {
        assert gems == [gems[0]] + gems[1..];
      }
      if Phantom(gems[0].meta, retentionDays, minUsage) then [gems[0].id] + rest else rest
  }

  /** `collection.delete(ids=...)`: the gems whose id is not listed, in order. */
  function Without(gems: seq<Gem>, ids: seq<string>): (r: seq<Gem>)
    ensures |r| <= |gems|
    ensures forall g :: g in r <==> g in gems && g.id !in ids
  {
    if gems == [] then []
    else
      var rest := Without(gems[1..], ids);
      assert forall g :: g in gems <==> g == gems[0] || g in gems[1..] by {
        assert gems == [gems[0]] + gems[1..];
      }
      if gems[0].id in ids then rest else [gems[0]] + rest
  }

  /** Ids identify gems. */
  predicate UniqueIds(gems: seq<Gem>)
  {
    forall i, j :: 0 <= i < j < |gems| ==> gems[i].id != gems[j].id
  }

  /** Removing gems keeps ids unique. */
  lemma {:induction false} WithoutKeepsUniqueIds(gems: seq<Gem>, ids: seq<string>)
    requires UniqueIds(gems)
    ensures UniqueIds(Without(gems, ids))
  {
    if gems != [] {
      var tail := gems[1..];
      assert UniqueIds(tail) by {
        forall i, j | 0 <= i < j < |tail| ensures tail[i].id != tail[j].id {
          assert tail[i] == gems[i + 1] && tail[j] == gems[j + 1];
        }
      }
      WithoutKeepsUniqueIds(tail, ids);
      if gems[0].id !in ids {
        forall h | h in tail ensures h.id != gems[0].id {
          var k :| 0 <= k < |tail| && tail[k] == h;
          assert gems[k + 1] == h;
        }
        ConsKeepsUniqueIds(gems[0], Without(tail, ids));
      }
    }
  }

  lemma ConsKeepsUniqueIds(g: Gem, gems: seq<Gem>)
    requires UniqueIds(gems) && forall h :: h in gems ==> h.id != g.id
    ensures UniqueIds([g] + gems)
  {
    var r := [g] + gems;
    forall i, j | 0 <= i < j < |r| ensures r[i].id != r[j].id {
      assert r[j] == gems[j - 1];
      if i > 0 {
        assert r[i] == gems[i - 1];
      }
    }
  }

  /** The vault after the ritual. */
  function CleansedVault(gems: seq<Gem>): seq<Gem>
  {
    var marked := MarkedIds(gems, RETENTION_DAYS, MIN_USAGE_THRESHOLD);
    if marked == [] then gems else Without(gems, marked)
  }

  /** The report of the ritual. */
  function CleanseReport(gems: seq<Gem>): RitualResult
  {
    var marked := MarkedIds(gems, RETENTION_DAYS, MIN_USAGE_THRESHOLD);
    if gems == [] then RitualResult("clean", 0)
    else if marked == [] then RitualResult("stable", 0)
    else RitualResult("purified", |marked|)
  }

  /**
   * With unique ids, the gems that survive are exactly the ones that are not
   * phantoms, and the reported count is the number of gems released.
   */
  lemma {:induction false} SurvivorsAreNotPhantoms(gems: seq<Gem>)
    requires UniqueIds(gems)
    ensures forall g :: g in CleansedVault(gems) <==> g in gems && !Phantom(g.meta, RETENTION_DAYS, MIN_USAGE_THRESHOLD)
    ensures CleanseReport(gems).deletedCount + |CleansedVault(gems)| == |gems|
  {
    var marked := MarkedIds(gems, RETENTION_DAYS, MIN_USAGE_THRESHOLD);
    forall g | g in gems
      ensures g.id in marked <==> Phantom(g.meta, RETENTION_DAYS, MIN_USAGE_THRESHOLD)
    {
      if g.id in marked {
        var h :| h in gems && h.id == g.id && Phantom(h.meta, RETENTION_DAYS, MIN_USAGE_THRESHOLD);
        SameIdSameGem(gems, g, h);
      }
    }
    PartitionCount(gems, marked);
  }

  lemma SameIdSameGem(gems: seq<Gem>, g: Gem, h: Gem)
    requires UniqueIds(gems) && g in gems && h in gems && g.id == h.id
    ensures g == h
  {
  }

  /** Every gem is either marked or kept, never both: the two counts add up to the size of the vault. */
  lemma {:induction false} PartitionCount(gems: seq<Gem>, marked: seq<string>)
    requires UniqueIds(gems)
    requires marked == MarkedIds(gems, RETENTION_DAYS, MIN_USAGE_THRESHOLD)
    ensures |marked| + |Without(gems, marked)| == |gems|
  {
    if gems != [] {
      var tail := gems[1..];
      var tailMarked := MarkedIds(tail, RETENTION_DAYS, MIN_USAGE_THRESHOLD);
      assert UniqueIds(tail) by {
        forall i, j | 0 <= i < j < |tail| ensures tail[i].id != tail[j].id {
          assert tail[i] == gems[i + 1] && tail[j] == gems[j + 1];
        }
      }
      PartitionCount(tail, tailMarked);
      assert gems[0].id !in tailMarked by {
        forall g | g in tail ensures g.id != gems[0].id {
          var k :| 0 <= k < |tail| && tail[k] == g;
          assert gems[k + 1] == g;
        }
      }
      WithoutIgnoresAbsent(tail, tailMarked, gems[0].id);
    }
  }

  /** Listing an id that no gem carries changes nothing in a removal. */
  lemma {:induction false} WithoutIgnoresAbsent(gems: seq<Gem>, ids: seq<string>, x: string)
    requires forall g :: g in gems ==> g.id != x
    ensures Without(gems, [x] + ids) == Without(gems, ids)
  {
    if gems != [] {
      assert gems[0] in gems;
      assert forall g :: g in gems[1..] ==> g in gems;
      WithoutIgnoresAbsent(gems[1..], ids, x);
    }
  }

  /** The three gems of the verification script: fresh and busy, old and idle, old and busy. */
  lemma VerifyScriptScenario()
    ensures var vault := [Gem("gem_vibrant", GemMeta(Some(0), Some(10))),
                          Gem("gem_phantom", GemMeta(Some(20), Some(1))),
                          Gem("gem_sleeping", GemMeta(Some(20), Some(5)))];
      && CleanseReport(vault) == RitualResult("purified", 1)
      && CleansedVault(vault) == [vault[0], vault[2]]
  {
    var vault := [Gem("gem_vibrant", GemMeta(Some(0), Some(10))),
                  Gem("gem_phantom", GemMeta(Some(20), Some(1))),
                  Gem("gem_sleeping", GemMeta(Some(20), Some(5)))];
    assert MarkedIds(vault[2..], RETENTION_DAYS, MIN_USAGE_THRESHOLD) == [];
    assert MarkedIds(vault[1..], RETENTION_DAYS, MIN_USAGE_THRESHOLD) == ["gem_phantom"];
    assert MarkedIds(vault, RETENTION_DAYS, MIN_USAGE_THRESHOLD) == ["gem_phantom"];
  }

  /** A gem whose timestamp is missing or unreadable is never released. */
  lemma UndatedGemsSurvive(gems: seq<Gem>, g: Gem)
    requires UniqueIds(gems) && g in gems && g.meta.ageDays.None?
    ensures g in CleansedVault(gems)
  {
    SurvivorsAreNotPhantoms(gems);
  }

  /**
   * The cleaner over one vault collection. The collection's listing is the
   * sequence of gems; deletion by ids rewrites it.
   */
  class UposathaCleaner {
    var collection: seq<Gem>
    const retentionDays: int := RETENTION_DAYS
    const minUsageThreshold: int := MIN_USAGE_THRESHOLD

    /** The vault's ids identify its gems. */
    ghost predicate Valid()
      reads this
    {
      UniqueIds(collection)
    }

    constructor(collection: seq<Gem>)
      requires UniqueIds(collection)
      ensures Valid()
      ensures this.collection == collection
      ensures retentionDays == RETENTION_DAYS && minUsageThreshold == MIN_USAGE_THRESHOLD
    {
      this.collection := collection;
    }

    /** The judgment loop: walks the listing and marks every phantom's id. */
    method Judge(allGems: seq<Gem>) returns (idsToRelease: seq<string>)
      ensures idsToRelease == MarkedIds(allGems, retentionDays, minUsageThreshold)
    {
      idsToRelease := [];
      var i := 0;
      while i < |allGems|
        invariant 0 <= i <= |allGems|
        invariant idsToRelease + MarkedIds(allGems[i..], retentionDays, minUsageThreshold)
                  == MarkedIds(allGems, retentionDays, minUsageThreshold)
      {
        assert allGems[i..][1..] == allGems[i + 1..];
        if Phantom(allGems[i].meta, retentionDays, minUsageThreshold) {
          idsToRelease := idsToRelease + [allGems[i].id];
        }
        i := i + 1;
      }
      assert allGems[i..] == [];
    }

    /** `cleanse_entropy`: reports clean, stable or purified, deleting exactly the marked gems. */
    method CleanseEntropy() returns (result: RitualResult)
      requires Valid()
      modifies this
      ensures Valid()
      ensures result == CleanseReport(old(collection))
      ensures collection == CleansedVault(old(collection))
      ensures forall g :: g in collection <==> g in old(collection) && !Phantom(g.meta, RETENTION_DAYS, MIN_USAGE_THRESHOLD)
    {
      SurvivorsAreNotPhantoms(collection);
      var allGems := collection;
      if allGems == [] {
        return RitualResult("clean", 0);
      }
      var idsToRelease := Judge(allGems);
      if idsToRelease != [] {
        var count := |idsToRelease|;
        WithoutKeepsUniqueIds(collection, idsToRelease);
        collection := Without(collection, idsToRelease);
        result := RitualResult("purified", count);
      } else {
        result := RitualResult("stable", 0);
      }
    }
  }
}
