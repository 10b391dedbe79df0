/**
 Routing of reads: the choice of a region by client, priority list and latency, and the draw of a
 pool from it with fallbacks. Regions are in the order of their dictionary.
 */
module ReadRouting {
  import opened Wrappers

  /** A read pool as the health check last found it. */
  datatype Meta = Meta(pool: nat, healthy: bool, latency: Option<real>)

  datatype Region = Region(name: string, metas: seq<Meta>)

  datatype RoutingError = NoPoolsAvailable | WritePoolMissing

  /* ----- what the regions hold ----- */

  predicate AnyHealthy(metas: seq<Meta>) {
    exists m :: m in metas && m.healthy
  }

  function HealthyOnly(metas: seq<Meta>): (r: seq<Meta>)
    ensures forall m :: m in r <==> m in metas && m.healthy
  {
    if metas == [] then [] else (if metas[0].healthy then [metas[0]] else []) + HealthyOnly(metas[1..])
  }

  /** The healthy pools with a measured latency. */
  function Measured(metas: seq<Meta>): (r: seq<Meta>)
    ensures forall m :: m in r <==> m in metas && m.healthy && m.latency.Some?
  {
    if metas == [] then []
    else (if metas[0].healthy && metas[0].latency.Some? then [metas[0]] else []) + Measured(metas[1..])
  }

  function Total(metas: seq<Meta>): real
    requires forall m :: m in metas ==> m.latency.Some?
  {
    if metas == [] then 0.0 else metas[0].latency.value + Total(metas[1..])
  }

  /** The average that health_check reports. */
  function Average(metas: seq<Meta>): (r: Option<real>)
    ensures r.Some? ==> AnyHealthy(metas)
  {
    var measured := Measured(metas);
    if measured == [] then None
    else
      assert measured[0] in measured;
      Some(Total(measured) / |measured| as real)
  }

  function AllMetas(regions: seq<Region>): (r: seq<Meta>)
    ensures forall m :: m in r <==> exists k :: 0 <= k < |regions| && m in regions[k].metas
  {
    if regions == [] then []
    else
      var rest := AllMetas(regions[1..]);
      assert forall m :: m in rest ==> exists k :: 1 <= k < |regions| && m in regions[k].metas by {
        forall m | m in rest ensures exists k :: 1 <= k < |regions| && m in regions[k].metas {
          var k :| 0 <= k < |regions[1..]| && m in regions[1..][k].metas;
          assert m in regions[k + 1].metas;
        }
      }
      assert forall k :: 1 <= k < |regions| ==> regions[k] == regions[1..][k - 1];
      regions[0].metas + rest
  }

  /** dict.get(name, []). */
  function MetasOf(regions: seq<Region>, name: string): (r: seq<Meta>)
    ensures r == [] || exists k :: 0 <= k < |regions| && regions[k].name == name && regions[k].metas == r
  {
    if regions == [] then []
    else if regions[0].name == name then regions[0].metas
    else
      var r := MetasOf(regions[1..], name);
      assert r == [] || exists k :: 1 <= k < |regions| && regions[k].name == name && regions[k].metas == r by {
        if r != [] {
          var k :| 0 <= k < |regions[1..]| && regions[1..][k].name == name && regions[1..][k].metas == r;
          assert regions[k + 1].name == name;
        }
      }
      r
  }

  /* ----- the choice of a region ----- */

  /** The first name on the list whose region has a healthy pool. */
  function FirstPriority(regions: seq<Region>, priority: seq<string>): (r: Option<string>)
    ensures r.Some? ==> AnyHealthy(MetasOf(regions, r.value))
  {
    if priority == [] then None
    else if AnyHealthy(MetasOf(regions, priority[0])) then Some(priority[0])
    else FirstPriority(regions, priority[1..])
  }

  /** The region of the least average; of equal ones the first. */
  function Fastest(regions: seq<Region>): (r: Option<nat>)
    ensures r.Some? ==> r.value < |regions| && Average(regions[r.value].metas).Some?
  {
    if regions == [] then None
    else
      var n := |regions| - 1;
      var before := Fastest(regions[..n]);
      var own := Average(regions[n].metas);
      if own.Some? && (before.None? || own.value < Average(regions[before.value].metas).value) then Some(n) else before
  }

  /** Fastest is the first region that no other beats. */
  lemma {:induction false} FastestIsFirstLeast(regions: seq<Region>)
    ensures Fastest(regions).None? <==> forall k :: 0 <= k < |regions| ==> Average(regions[k].metas).None?
    ensures Fastest(regions).Some? ==>
      var best := Fastest(regions).value;
      forall k :: 0 <= k < |regions| && Average(regions[k].metas).Some? ==>
        && Average(regions[best].metas).value <= Average(regions[k].metas).value
        && (k < best ==> Average(regions[best].metas).value < Average(regions[k].metas).value)
  {
    hide Average;
    if regions != [] {
      var n := |regions| - 1;
      FastestIsFirstLeast(regions[..n]);
      assert forall k :: 0 <= k < n ==> regions[..n][k] == regions[k];
    }
  }

  function FirstNonEmpty(regions: seq<Region>): (r: Option<string>)
    ensures r.None? ==> forall k :: 0 <= k < |regions| ==> regions[k].metas == []
    ensures r.Some? ==> exists k :: 0 <= k < |regions| && regions[k].name == r.value && regions[k].metas != []
  {
    if regions == [] then None
    else if regions[0].metas != [] then Some(regions[0].name)
    else
      var r := FirstNonEmpty(regions[1..]);
      assert forall k :: 1 <= k < |regions| ==> regions[k] == regions[1..][k - 1];
      r
  }

  /** _choose_region. A fastest region with an empty name counts as none. */
  function Choice(regions: seq<Region>, priority: seq<string>, client: Option<string>): Option<string> {
    if client.Some? && client.value != "" && AnyHealthy(MetasOf(regions, client.value)) then client
    else if FirstPriority(regions, priority).Some? then FirstPriority(regions, priority)
    else
      var best := Fastest(regions);
      if best.Some? && regions[best.value].name != "" then Some(regions[best.value].name)
      else FirstNonEmpty(regions)
  }

  /* ----- the choice in plain terms ----- */

  /** The keys of a dictionary differ. */
  predicate DistinctNames(regions: seq<Region>) {
    forall j, k :: 0 <= j < k < |regions| ==> regions[j].name != regions[k].name
  }

  /** A region of this name with a healthy pool. */
  predicate Up(regions: seq<Region>, name: string) {
    exists k, i ::
      0 <= k < |regions| && regions[k].name == name && 0 <= i < |regions[k].metas| && regions[k].metas[i].healthy
  }

  lemma {:induction false} MetasOfAt(regions: seq<Region>, k: nat)
    requires DistinctNames(regions) && k < |regions|
    ensures MetasOf(regions, regions[k].name) == regions[k].metas
  {
    if k > 0 {
      assert regions[0].name != regions[k].name;
      forall i, j | 0 <= i < j < |regions[1..]| ensures regions[1..][i].name != regions[1..][j].name {
        assert regions[i + 1].name != regions[j + 1].name;
      }
      MetasOfAt(regions[1..], k - 1);
    }
  }

  lemma UpIff(regions: seq<Region>, name: string)
    requires DistinctNames(regions)
    ensures AnyHealthy(MetasOf(regions, name)) <==> Up(regions, name)
  {
    hide DistinctNames, MetasOf;
    if AnyHealthy(MetasOf(regions, name)) {
      var m :| m in MetasOf(regions, name) && m.healthy;
      var k :| 0 <= k < |regions| && regions[k].name == name && regions[k].metas == MetasOf(regions, name);
      var i :| 0 <= i < |regions[k].metas| && regions[k].metas[i] == m;
      assert regions[k].metas[i].healthy;
    }
    if Up(regions, name) {
      var k, i :|
        0 <= k < |regions| && regions[k].name == name && 0 <= i < |regions[k].metas| && regions[k].metas[i].healthy;
      MetasOfAt(regions, k);
      assert regions[k].metas[i] in MetasOf(regions, name);
    }
  }

  /** The first name of the list whose region is up. */
  ghost predicate IsFirstUp(regions: seq<Region>, priority: seq<string>, name: string) {
    exists i :: 0 <= i < |priority| && priority[i] == name && Up(regions, name)
      && forall j :: 0 <= j < i ==> !Up(regions, priority[j])
  }

  lemma {:induction false} FirstPriorityIs(regions: seq<Region>, priority: seq<string>)
    requires DistinctNames(regions)
    ensures match FirstPriority(regions, priority)
      case Some(name) => IsFirstUp(regions, priority, name)
      case None => forall i :: 0 <= i < |priority| ==> !Up(regions, priority[i])
  {
    hide DistinctNames, MetasOf, AnyHealthy, Up;
    if priority != [] {
      UpIff(regions, priority[0]);
      FirstPriorityIs(regions, priority[1..]);
      forall i | 0 < i < |priority| ensures priority[i] == priority[1..][i - 1] {}
      if !AnyHealthy(MetasOf(regions, priority[0])) && FirstPriority(regions, priority[1..]).Some? {
        LaterIsFirstUp(regions, priority, FirstPriority(regions, priority[1..]).value);
      }
    }
  }

  lemma LaterIsFirstUp(regions: seq<Region>, priority: seq<string>, name: string)
    requires priority != [] && !Up(regions, priority[0]) && IsFirstUp(regions, priority[1..], name)
    ensures IsFirstUp(regions, priority, name)
  {
    hide Up;
    var i :| 0 <= i < |priority| - 1 && priority[1..][i] == name && Up(regions, name)
      && forall j :: 0 <= j < i ==> !Up(regions, priority[1..][j]);
    assert priority[i + 1] == name;
    forall j | 0 <= j < i + 1 ensures !Up(regions, priority[j]) {
      if j > 0 { assert priority[1..][j - 1] == priority[j]; }
    }
  }

  /** The region of the least average of those with one; of equal ones the first. */
  predicate IsFastest(regions: seq<Region>, best: nat) {
    && best < |regions| && Average(regions[best].metas).Some?
    && forall k :: 0 <= k < |regions| && Average(regions[k].metas).Some? ==>
         && Average(regions[best].metas).value <= Average(regions[k].metas).value
         && (k < best ==> Average(regions[best].metas).value < Average(regions[k].metas).value)
  }

  /** The first region with any pool. */
  predicate IsFirstWithPool(regions: seq<Region>, name: string) {
    exists k :: 0 <= k < |regions| && regions[k].name == name && regions[k].metas != []
      && forall j :: 0 <= j < k ==> regions[j].metas == []
  }

  lemma {:induction false} FirstNonEmptyIs(regions: seq<Region>)
    ensures FirstNonEmpty(regions).Some? ==> IsFirstWithPool(regions, FirstNonEmpty(regions).value)
  {
    if regions != [] && regions[0].metas == [] && FirstNonEmpty(regions).Some? {
      FirstNonEmptyIs(regions[1..]);
      var k :| 0 <= k < |regions| - 1 && regions[1..][k].name == FirstNonEmpty(regions).value
        && regions[1..][k].metas != [] && forall j :: 0 <= j < k ==> regions[1..][j].metas == [];
      forall j | 0 <= j < k + 1 ensures regions[j].metas == [] {
        if j > 0 { assert regions[1..][j - 1] == regions[j]; }
      }
      assert regions[k + 1] == regions[1..][k];
    }
  }

  ghost predicate IsNamedFastest(regions: seq<Region>, name: string) {
    exists best: nat :: IsFastest(regions, best) && regions[best].name == name
  }

  predicate AnyListedUp(regions: seq<Region>, priority: seq<string>) {
    exists i :: 0 <= i < |priority| && Up(regions, priority[i])
  }

  /**
   The region of the client if it is up; else the first listed that is up; else the fastest, if some region has
   latencies; else, or where that has no name, the first with any pool.
   */
  ghost predicate IsChoice(regions: seq<Region>, priority: seq<string>, client: Option<string>,
          choice: Option<string>) {
    if client.Some? && client.value != "" && Up(regions, client.value) then choice == client
    else if AnyListedUp(regions, priority) then choice.Some? && IsFirstUp(regions, priority, choice.value)
    else if exists name :: IsNamedFastest(regions, name) && name != "" then
      choice.Some? && choice.value != "" && IsNamedFastest(regions, choice.value)
    else choice.Some? ==> IsFirstWithPool(regions, choice.value)
  }

  lemma ChoiceIs(regions: seq<Region>, priority: seq<string>, client: Option<string>)
    requires DistinctNames(regions)
    ensures IsChoice(regions, priority, client, Choice(regions, priority, client))
  {
    if client.Some? { UpIff(regions, client.value); }
    FirstPriorityIs(regions, priority);
    FastestNameIs(regions);
    FirstNonEmptyIs(regions);
    hide Up, DistinctNames, AnyHealthy, MetasOf, IsFirstWithPool, IsNamedFastest, FirstNonEmpty, FirstPriority, Fastest;
    ListedUp(regions, priority);
    hide IsFirstUp, AnyListedUp;
  }

  lemma ListedUp(regions: seq<Region>, priority: seq<string>)
    requires match FirstPriority(regions, priority)
      case Some(name) => IsFirstUp(regions, priority, name)
      case None => forall i :: 0 <= i < |priority| ==> !Up(regions, priority[i])
    ensures AnyListedUp(regions, priority) <==> FirstPriority(regions, priority).Some?
  {
    hide Up, FirstPriority;
  }

  lemma FastestNameIs(regions: seq<Region>)
    ensures forall name :: IsNamedFastest(regions, name) <==>
      Fastest(regions).Some? && regions[Fastest(regions).value].name == name
  {
    FastestIsFirstLeast(regions);
    hide Average, Fastest;
    if Fastest(regions).Some? { assert IsFastest(regions, Fastest(regions).value); }
    forall best: nat | IsFastest(regions, best) ensures Fastest(regions) == Some(best) {
      OneIsFastest(regions, best, Fastest(regions));
    }
    hide IsFastest;
  }

  lemma OneIsFastest(regions: seq<Region>, best: nat, other: Option<nat>)
    requires IsFastest(regions, best)
    requires other.None? ==> forall k :: 0 <= k < |regions| ==> Average(regions[k].metas).None?
    requires other.Some? ==> IsFastest(regions, other.value)
    ensures other == Some(best)
  {
    hide Average;
  }

  /* ----- the average ----- */

  predicate Counts(m: Meta) {
    m.healthy && m.latency.Some?
  }

  /** How many pools have a latency that counts, and what they add up to. */
  function CountOf(metas: seq<Meta>): nat {
    if metas == [] then 0 else (if Counts(metas[0]) then 1 else 0) + CountOf(metas[1..])
  }

  function SumOf(metas: seq<Meta>): real {
    if metas == [] then 0.0 else (if Counts(metas[0]) then metas[0].latency.value else 0.0) + SumOf(metas[1..])
  }

  lemma {:induction false} TotalIs(metas: seq<Meta>)
    ensures |Measured(metas)| == CountOf(metas) && Total(Measured(metas)) == SumOf(metas)
  {
    if metas != [] {
      TotalIs(metas[1..]);
      if Counts(metas[0]) {
        assert Measured(metas)[1..] == Measured(metas[1..]);
      } else {
        assert Measured(metas) == Measured(metas[1..]);
      }
    }
  }

  /** The average is that of the healthy pools with a latency, each counted once, and there is none without. */
  lemma AverageIs(metas: seq<Meta>)
    ensures Average(metas) == if CountOf(metas) == 0 then None else Some(SumOf(metas) / CountOf(metas) as real)
  {
    TotalIs(metas);
    hide Measured, Total, CountOf, SumOf;
  }

  /** What a pool is drawn from. */
  function Candidates(regions: seq<Region>, region: string): seq<Meta> {
    var metas := MetasOf(regions, region);
    if AnyHealthy(metas) then metas
    else if HealthyOnly(AllMetas(regions)) != [] then HealthyOnly(AllMetas(regions))
    else AllMetas(regions)
  }

  predicate AnyPool(regions: seq<Region>) {
    exists k :: 0 <= k < |regions| && regions[k].metas != []
  }

  /** Regions with a pool are chosen from if and only if there is one. */
  lemma ChoiceIffAnyPool(regions: seq<Region>, priority: seq<string>, client: Option<string>)
    ensures Choice(regions, priority, client).Some? <==> AnyPool(regions)
  {
    hide FirstPriority, Fastest, FirstNonEmpty, Average;
    var c := Choice(regions, priority, client);
    if c.Some? && AnyHealthy(MetasOf(regions, c.value)) {
      var k :| 0 <= k < |regions| && regions[k].name == c.value && regions[k].metas == MetasOf(regions, c.value);
      assert regions[k].metas != [];
    }
    var best := Fastest(regions);
    if best.Some? {
      assert AnyHealthy(regions[best.value].metas);
      assert regions[best.value].metas != [];
    }
  }

  /** The list a pool is drawn from is never empty, and holds only configured read pools. */
  lemma CandidatesAreConfigured(regions: seq<Region>, region: string)
    requires AnyPool(regions)
    ensures Candidates(regions, region) != []
    ensures forall m :: m in Candidates(regions, region) ==> m in AllMetas(regions)
  {
    hide HealthyOnly, AllMetas;
    var k :| 0 <= k < |regions| && regions[k].metas != [];
    assert regions[k].metas[0] in AllMetas(regions);
    var metas := MetasOf(regions, region);
    if metas != [] {
      var j :| 0 <= j < |regions| && regions[j].name == region && regions[j].metas == metas;
      assert forall m :: m in metas ==> m in regions[j].metas;
    }
  }

  /** A region chosen that has no healthy pool gives way to any healthy pool there is. */
  lemma DownRegionGivesWay(regions: seq<Region>, region: string, m: Meta)
    requires !AnyHealthy(MetasOf(regions, region)) && AnyHealthy(AllMetas(regions))
    ensures m in Candidates(regions, region) <==> m in AllMetas(regions) && m.healthy
  {
    hide MetasOf, AllMetas, HealthyOnly;
    var h :| h in AllMetas(regions) && h.healthy;
    assert h in HealthyOnly(AllMetas(regions));
  }

  /**
   The draw is not from the healthy pools of the region but from all of them: an unhealthy pool can be
   drawn if and only if the chosen region has both kinds, or no pool anywhere is healthy.
   */
  lemma UnhealthyDrawnIff(regions: seq<Region>, region: string)
    requires AnyPool(regions)
    ensures
      (exists m :: m in Candidates(regions, region) && !m.healthy)
      <==>
      || (AnyHealthy(MetasOf(regions, region)) && exists m :: m in MetasOf(regions, region) && !m.healthy)
      || !AnyHealthy(AllMetas(regions))
  {
    CandidatesAreConfigured(regions, region);
    hide MetasOf, AllMetas, HealthyOnly, AnyPool;
    var metas := MetasOf(regions, region);
    var candidates := Candidates(regions, region);
    if AnyHealthy(metas) {
      var h :| h in metas && h.healthy;
      assert h in candidates;
    } else if HealthyOnly(AllMetas(regions)) != [] {
      var h := HealthyOnly(AllMetas(regions))[0];
      assert h in HealthyOnly(AllMetas(regions));
    } else {
      assert forall m :: m in AllMetas(regions) && m.healthy ==> m in HealthyOnly(AllMetas(regions));
      assert candidates[0] in candidates;
    }
  }

  /** Such a draw, from one region with a healthy and a dead pool. */
  lemma DeadPoolCanBeDrawn()
    ensures
      var up, down := Meta(1, true, Some(0.1)), Meta(2, false, None);
      var regions := [Region("eu", [up, down])];
      Choice(regions, [], Some("eu")) == Some("eu") && down in Candidates(regions, "eu")
  {
    var up, down := Meta(1, true, Some(0.1)), Meta(2, false, None);
    var regions := [Region("eu", [up, down])];
    assert MetasOf(regions, "eu") == [up, down];
    assert up in [up, down] && down in [up, down];
    assert AnyHealthy([up, down]);
  }

  /** No pool is configured twice: each is created for its place in its region. */
  predicate DistinctPools(regions: seq<Region>) {
    forall m, m' :: m in AllMetas(regions) && m' in AllMetas(regions) && m.pool == m'.pool ==> m == m'
  }

  /** Some read pool of the region is this one. */
  predicate HostsPool(regions: seq<Region>, region: string, pool: nat) {
    exists m :: m in MetasOf(regions, region) && m.pool == pool
  }

  /**
   The pool drawn is named after the chosen region. It is hosted there if and only if that region has a
   healthy pool, or none anywhere is healthy and the draw happens to fall on the region.
   */
  lemma LabelIsRightIff(regions: seq<Region>, region: string, m: Meta)
    requires DistinctPools(regions) && m in Candidates(regions, region)
    ensures HostsPool(regions, region, m.pool) <==>
      || AnyHealthy(MetasOf(regions, region))
      || (!AnyHealthy(AllMetas(regions)) && m in MetasOf(regions, region))
  {
    OwnMetasAreConfigured(regions, region);
    hide MetasOf, AllMetas, HealthyOnly;
    if !AnyHealthy(MetasOf(regions, region)) && AnyHealthy(AllMetas(regions)) {
      DownRegionGivesWay(regions, region, m);
    }
  }

  lemma OwnMetasAreConfigured(regions: seq<Region>, region: string)
    ensures forall m :: m in MetasOf(regions, region) ==> m in AllMetas(regions)
  {
    hide AllMetas;
  }

  /** A pool of another region under the name of a region that is down. */
  lemma LabelCanBeWrong()
    ensures
      var up, down := Meta(1, true, Some(0.1)), Meta(2, false, None);
      var regions := [Region("eu", [down]), Region("us", [up])];
      DistinctPools(regions) && up in Candidates(regions, "eu") && !HostsPool(regions, "eu", up.pool)
  {
    var up, down := Meta(1, true, Some(0.1)), Meta(2, false, None);
    var regions := [Region("eu", [down]), Region("us", [up])];
    TwoRegions(up, down);
    hide AllMetas, MetasOf, HealthyOnly, Candidates;
    assert AnyHealthy(AllMetas(regions));
    DownRegionGivesWay(regions, "eu", up);
  }

  lemma TwoRegions(up: Meta, down: Meta)
    ensures
      var regions := [Region("eu", [down]), Region("us", [up])];
      (forall m :: m in AllMetas(regions) <==> m in {up, down}) && MetasOf(regions, "eu") == [down]
  {
    var regions := [Region("eu", [down]), Region("us", [up])];
    hide AllMetas;
    assert regions[0].metas == [down] && regions[1].metas == [up];
    assert down in regions[0].metas && up in regions[1].metas;
  }

  predicate Hosts(region: Region, name: string, pool: nat) {
    region.name == name && exists m :: m in region.metas && m.pool == pool
  }

  /** Python's `name or otherwise`. */
  function Or(name: Option<string>, otherwise: string): string {
    if name.Some? && name.value != "" then name.value else otherwise
  }

  /* ----- the class, statement by statement ----- */

  class DataBase {
    var readPoolsByRegion: seq<Region>
    var regionPriority: seq<string>
    var writePool: Option<nat>

    method HasHealthy(metas: seq<Meta>) returns (found: bool)
      ensures found <==> AnyHealthy(metas)
    {
      for i := 0 to |metas|
        invariant forall k :: 0 <= k < i ==> !metas[k].healthy
      {
        if metas[i].healthy {
          return true;
        }
      }
      found := false;
    }

    method ChooseRegion(client: Option<string>) returns (region: Option<string>)
      ensures region == Choice(readPoolsByRegion, regionPriority, client)
    {
      hide Average, AnyHealthy, MetasOf, FirstPriority, Fastest, FirstNonEmpty;
      if client.Some? && client.value != "" {
        var fits := HasHealthy(MetasOf(readPoolsByRegion, client.value));
        if fits {
          return client;
        }
      }
      var listed := FirstListed();
      if listed.Some? {
        return listed;
      }
      var best := LowestLatency();
      if best.Some? && best.value != "" {
        return best;
      }
      region := FirstWithPool();
    }

    method FirstListed() returns (region: Option<string>)
      ensures region == FirstPriority(readPoolsByRegion, regionPriority)
    {
      hide AnyHealthy, MetasOf;
      for i := 0 to |regionPriority|
        invariant FirstPriority(readPoolsByRegion, regionPriority)
          == FirstPriority(readPoolsByRegion, regionPriority[i..])
      {
        assert regionPriority[i..][0] == regionPriority[i] && regionPriority[i..][1..] == regionPriority[i + 1..];
        var fits := HasHealthy(MetasOf(readPoolsByRegion, regionPriority[i]));
        if fits {
          return Some(regionPriority[i]);
        }
      }
      region := None;
    }

    /** The loop over regions that keeps the best average so far. */
    method LowestLatency() returns (bestRegion: Option<string>)
      ensures bestRegion == if Fastest(readPoolsByRegion).Some?
        then Some(readPoolsByRegion[Fastest(readPoolsByRegion).value].name) else None
    {
      var bestLatency: Option<real> := None;
      bestRegion := None;
      for i := 0 to |readPoolsByRegion|
        invariant bestRegion.Some? <==> Fastest(readPoolsByRegion[..i]).Some?
        invariant bestLatency.Some? <==> bestRegion.Some?
        invariant bestRegion.Some? ==>
          var best := readPoolsByRegion[Fastest(readPoolsByRegion[..i]).value];
          bestRegion.value == best.name && bestLatency == Average(best.metas)
      {
        var next := readPoolsByRegion[..i + 1];
        assert next[..i] == readPoolsByRegion[..i] && next[i] == readPoolsByRegion[i];
        var healthy := Measured(readPoolsByRegion[i].metas);
        if healthy != [] {
          var avg := Total(healthy) / |healthy| as real;
          if bestLatency.None? || avg < bestLatency.value {
            bestLatency, bestRegion := Some(avg), Some(readPoolsByRegion[i].name);
          }
        }
      }
      assert readPoolsByRegion[..|readPoolsByRegion|] == readPoolsByRegion;
    }

    method FirstWithPool() returns (region: Option<string>)
      ensures region == FirstNonEmpty(readPoolsByRegion)
    {
      for i := 0 to |readPoolsByRegion|
        invariant FirstNonEmpty(readPoolsByRegion) == FirstNonEmpty(readPoolsByRegion[i..])
      {
        assert readPoolsByRegion[i..][0] == readPoolsByRegion[i]
          && readPoolsByRegion[i..][1..] == readPoolsByRegion[i + 1..];
        if readPoolsByRegion[i].metas != [] {
          return Some(readPoolsByRegion[i].name);
        }
      }
      region := None;
    }

    method GetRegionForPool(pool: nat) returns (region: Option<string>)
      ensures region.None? <==> forall m :: m in AllMetas(readPoolsByRegion) ==> m.pool != pool
      ensures region.Some? ==>
        exists k :: 0 <= k < |readPoolsByRegion| && Hosts(readPoolsByRegion[k], region.value, pool)
    {
      hide AllMetas;
      for i := 0 to |readPoolsByRegion|
        invariant forall k :: 0 <= k < i ==> forall m :: m in readPoolsByRegion[k].metas ==> m.pool != pool
      {
        var metas := readPoolsByRegion[i].metas;
        for j := 0 to |metas|
          invariant forall k :: 0 <= k < j ==> metas[k].pool != pool
        {
          if metas[j].pool == pool {
            assert metas[j] in metas;
            assert Hosts(readPoolsByRegion[i], readPoolsByRegion[i].name, pool);
            return Some(readPoolsByRegion[i].name);
          }
        }
      }
      region := None;
    }

    /**
     With a read pool configured the answer is one of the candidates, under the name of the chosen
     region; with none it is the write pool, whose region can then only be "primary_fallback";
     without that either it raises. The draw is a parameter.
     */
    method SelectReadPool(client: Option<string>, draw: nat) returns (r: Result<(nat, string), RoutingError>)
      ensures AnyPool(readPoolsByRegion) ==>
        var region := Choice(readPoolsByRegion, regionPriority, client);
        && region.Some? && r.Ok? && r.value.1 == region.value
        && exists m ::
             && m in Candidates(readPoolsByRegion, region.value) && m in AllMetas(readPoolsByRegion)
             && m.pool == r.value.0
      ensures AnyPool(readPoolsByRegion) && AnyHealthy(MetasOf(readPoolsByRegion, r.value.1)) ==>
        HostsPool(readPoolsByRegion, r.value.1, r.value.0)
      ensures DistinctPools(readPoolsByRegion) && AnyPool(readPoolsByRegion) ==>
        (AnyHealthy(AllMetas(readPoolsByRegion)) ==>
           (HostsPool(readPoolsByRegion, r.value.1, r.value.0) <==> AnyHealthy(MetasOf(readPoolsByRegion, r.value.1))))
      ensures !AnyPool(readPoolsByRegion) ==>
        r == if writePool.Some? then Ok((writePool.value, "primary_fallback")) else Err(NoPoolsAvailable)
    {
      hide Choice, MetasOf, AllMetas, HealthyOnly;
      var region := ChooseRegion(client);
      ChoiceIffAnyPool(readPoolsByRegion, regionPriority, client);
      if region.None? {
        if writePool.Some? {
          var name := GetRegionForPool(writePool.value);
          NoPoolNoMetas(readPoolsByRegion);
          return Ok((writePool.value, Or(name, "primary_fallback")));
        }
        return Err(NoPoolsAvailable);
      }
      var metas := MetasOf(readPoolsByRegion, region.value);
      var anyHere := HasHealthy(metas);
      if !anyHere {
        var allHealthy := HealthyOnly(AllMetas(readPoolsByRegion));
        metas := if allHealthy != [] then allHealthy else AllMetas(readPoolsByRegion);
      }
      CandidatesAreConfigured(readPoolsByRegion, region.value);
      assert metas == Candidates(readPoolsByRegion, region.value);
      hide Candidates;
      var selected := metas[draw % |metas|];
      assert selected in metas;
      if DistinctPools(readPoolsByRegion) { LabelIsRightIff(readPoolsByRegion, region.value, selected); }
      return Ok((selected.pool, region.value));
    }

    method GetPool(usePrimary: bool, client: Option<string>, draw: nat) returns (r: Result<(nat, string), RoutingError>)
      ensures usePrimary && writePool.None? ==> r == Err(WritePoolMissing)
      ensures usePrimary && writePool.Some? ==> r.Ok? && r.value.0 == writePool.value
      ensures usePrimary && r.Ok? && r.value.1 != "primary" ==>
        exists k :: 0 <= k < |readPoolsByRegion| && Hosts(readPoolsByRegion[k], r.value.1, r.value.0)
      ensures !usePrimary && AnyPool(readPoolsByRegion) ==>
        r.Ok? && exists m :: m in AllMetas(readPoolsByRegion) && m.pool == r.value.0
    {
      hide Choice, MetasOf, AllMetas, HealthyOnly, Candidates, AnyPool, Hosts;
      if usePrimary {
        if writePool.None? {
          return Err(WritePoolMissing);
        }
        var name := GetRegionForPool(writePool.value);
        return Ok((writePool.value, Or(name, "primary")));
      }
      r := SelectReadPool(client, draw);
    }
  }

  lemma NoPoolNoMetas(regions: seq<Region>)
    ensures !AnyPool(regions) ==> AllMetas(regions) == []
  {
    hide AllMetas;
    if !AnyPool(regions) && AllMetas(regions) != [] {
      assert AllMetas(regions)[0] in AllMetas(regions);
    }
  }
}
