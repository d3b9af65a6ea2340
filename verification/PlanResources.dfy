/** Plan resources derived from a monthly price, in exact arithmetic. */
module PlanResources {
  import opened Options

  function Max(a: real, b: real): real { if a < b then b else a }

  function Min(a: real, b: real): real { if b < a then b else a }

  function Abs(x: real): real { if x < 0.0 then -x else x }

  /** `Math.round`: halves go up. */
  function Round(x: real): int { (x + 0.5).Floor }

  function Clamp(low: real, high: real, x: real): real { Max(low, Min(high, x)) }

  // ----- Snapping to a list -----

  /** The later part of the `reduce`: `best` is the choice so far. */
  function SnapFrom(best: real, list: seq<real>, raw: real): real
    decreases list
  {
    if list == [] then best else SnapFrom(Nearer(best, list[0], raw), list[1..], raw)
  }

  function Nearer(best: real, n: real, raw: real): real { if Abs(n - raw) < Abs(best - raw) then n else best }

  function Snap(list: seq<real>, raw: real): real
    requires list != []
  {
    SnapFrom(list[0], list[1..], raw)
  }

  predicate Ascending(list: seq<real>) { forall i, j :: 0 <= i < j < |list| ==> list[i] < list[j] }

  /** `x` is a listed value, none is nearer to `raw`, and every other one that is as near is higher. */
  predicate IsNearestLower(list: seq<real>, raw: real, x: real) {
    && x in list
    && forall i :: 0 <= i < |list| ==>
         Abs(x - raw) <= Abs(list[i] - raw) && (Abs(x - raw) == Abs(list[i] - raw) ==> x <= list[i])
  }

  /** `x` is nearer to `raw` than `y`, or as near and not higher. */
  predicate Beats(x: real, y: real, raw: real) {
    Abs(x - raw) < Abs(y - raw) || (Abs(x - raw) == Abs(y - raw) && x <= y)
  }

  lemma BeatsChain(x: real, y: real, z: real, raw: real)
    requires Beats(x, y, raw) && Beats(y, z, raw)
    ensures Beats(x, z, raw)
  {
  }

  lemma {:induction false} SnapFromBeats(best: real, list: seq<real>, raw: real)
    requires Ascending(list) && (list != [] ==> best < list[0])
    ensures var x := SnapFrom(best, list, raw);
            && (x == best || x in list) && Beats(x, best, raw)
            && forall i :: 0 <= i < |list| ==> Beats(x, list[i], raw)
    decreases list
  {
    if list != [] {
      var next, rest := Nearer(best, list[0], raw), list[1..];
      SnapFromBeats(next, rest, raw);
      var x := SnapFrom(next, rest, raw);
      BeatsChain(x, next, best, raw);
      BeatsChain(x, next, list[0], raw);
      assert forall i :: 1 <= i < |list| ==> list[i] == rest[i - 1];
    }
  }

  /** The fold finds the nearest listed value, and the lower one of two that are as near. */
  lemma SnapIsNearest(list: seq<real>, raw: real)
    requires list != [] && Ascending(list)
    ensures IsNearestLower(list, raw, Snap(list, raw))
  {
    var rest := list[1..];
    SnapFromBeats(list[0], rest, raw);
    var x := Snap(list, raw);
    forall i | 0 <= i < |list| ensures Beats(x, list[i], raw) {
      if i > 0 {
        assert list[i] == rest[i - 1];
      }
    }
  }

  /** This determines the value, so the fold could run in any order. */
  lemma NearestIsUnique(list: seq<real>, raw: real, x: real, y: real)
    requires IsNearestLower(list, raw, x) && IsNearestLower(list, raw, y)
    ensures x == y
  {
    var i :| 0 <= i < |list| && list[i] == x;
    var j :| 0 <= j < |list| && list[j] == y;
  }

  lemma SnapIsMonotone(list: seq<real>, a: real, b: real)
    requires list != [] && Ascending(list) && a <= b
    ensures Snap(list, a) <= Snap(list, b)
  {
    SnapIsNearest(list, a);
    SnapIsNearest(list, b);
    var i :| 0 <= i < |list| && list[i] == Snap(list, a);
    var j :| 0 <= j < |list| && list[j] == Snap(list, b);
  }

  const RAM_SNAPS_MB: seq<real> := [
    128.0, 192.0, 256.0, 384.0, 512.0, 768.0, 1024.0, 1536.0, 2048.0, 3072.0, 4096.0, 6144.0, 8192.0,
    12288.0, 16384.0, 24576.0, 32768.0
  ]

  const STORAGE_SNAPS_GB: seq<real> := [
    2.0, 3.0, 4.0, 5.0, 6.0, 8.0, 10.0, 12.0, 15.0, 20.0, 25.0, 30.0, 40.0, 50.0
  ]

  // ----- Megabytes and gigabytes -----

  function MbToRamGb(mb: real): real { Round((mb / 1024.0) * 10000.0) as real / 10000.0 }

  function RamGbToMb(gb: real): int {
    var mb := Round(gb * 1024.0);
    if mb < 64 then 64 else mb
  }

  lemma RoundIsNear(x: real)
    ensures x - 0.5 < Round(x) as real <= x + 0.5
  {
  }

  lemma RoundOf(x: real, n: int)
    requires n as real - 0.5 <= x < n as real + 0.5
    ensures Round(x) == n
  {
  }

  /** Rounding to four decimals loses less than 0.052 MB, so whole megabytes come back: exactly those that
      are not below the floor of 64 MB. */
  lemma MegabytesComeBack(mb: int)
    ensures RamGbToMb(MbToRamGb(mb as real)) == mb <==> 64 <= mb
    ensures Abs(MbToRamGb(mb as real) * 1024.0 - mb as real) < 0.052
  {
    var x := (mb as real / 1024.0) * 10000.0;
    RoundIsNear(x);
    RoundOf(MbToRamGb(mb as real) * 1024.0, mb);
  }

  /** Megabytes are the gigabytes times 1024, rounded, and never below 64. */
  lemma MegabytesOf(gb: real)
    ensures RamGbToMb(gb) >= 64 && Abs(RamGbToMb(gb) as real - Max(64.0, gb * 1024.0)) <= 0.5
    ensures gb * 1024.0 <= 64.0 ==> RamGbToMb(gb) == 64
  {
    RoundIsNear(gb * 1024.0);
  }

  // ----- Resources -----

  datatype Resources = Resources(cpuCores: real, ramGb: real, ramMb: real, storageGb: real, bandwidthTb: real,
                                 aiCredits: int)

  /** The price that counts; `None` for what is not a number. */
  function Price(monthly: Option<real>): real {
    Max(0.0, if monthly.Some? then monthly.value else 0.0)
  }

  function Cpu(price: real): real {
    Round(Clamp(0.1, 16.0, 0.25 + (price - 30.0) * (0.25 / 40.0)) * 20.0) as real / 20.0
  }

  function RamMb(price: real): real {
    Snap(RAM_SNAPS_MB, Clamp(128.0, 32768.0, 256.0 + (price - 30.0) * (256.0 / 40.0)))
  }

  function StorageGb(price: real): real {
    Snap(STORAGE_SNAPS_GB, Clamp(2.0, 50.0, 2.0 + (price - 30.0) * (2.0 / 40.0)))
  }

  function BandwidthTb(price: real): real { Max(0.5, Round((price / 70.0) * 10.0) as real / 10.0) }

  function AiCredits(price: real): int {
    var credits := Round(price / 5.0);
    if credits < 5 then 5 else credits
  }

  function ResourcesFromPrice(monthly: Option<real>): Resources {
    var price := Price(monthly);
    Resources(Cpu(price), MbToRamGb(RamMb(price)), RamMb(price), StorageGb(price), BandwidthTb(price), AiCredits(price))
  }

  predicate AtMost(a: Resources, b: Resources) {
    && a.cpuCores <= b.cpuCores && a.ramGb <= b.ramGb && a.ramMb <= b.ramMb
    && a.storageGb <= b.storageGb && a.bandwidthTb <= b.bandwidthTb && a.aiCredits <= b.aiCredits
  }

  lemma ListsAscend()
    ensures Ascending(RAM_SNAPS_MB) && Ascending(STORAGE_SNAPS_GB)
  {
  }

  lemma RoundIsMonotone(x: real, y: real)
    requires x <= y
    ensures Round(x) <= Round(y)
  {
  }

  lemma ClampIsMonotone(low: real, high: real, x: real, y: real)
    requires low <= high && x <= y
    ensures low <= Clamp(low, high, x) <= Clamp(low, high, y) <= high
  {
  }

  lemma CpuIsMonotone(p: real, q: real)
    requires p <= q
    ensures Cpu(p) <= Cpu(q)
  {
    var x, y := 0.25 + (p - 30.0) * (0.25 / 40.0), 0.25 + (q - 30.0) * (0.25 / 40.0);
    ClampIsMonotone(0.1, 16.0, x, y);
    RoundIsMonotone(Clamp(0.1, 16.0, x) * 20.0, Clamp(0.1, 16.0, y) * 20.0);
  }

  lemma RamIsMonotone(p: real, q: real)
    requires p <= q
    ensures RamMb(p) <= RamMb(q) && MbToRamGb(RamMb(p)) <= MbToRamGb(RamMb(q))
  {
    ListsAscend();
    var x, y := 256.0 + (p - 30.0) * (256.0 / 40.0), 256.0 + (q - 30.0) * (256.0 / 40.0);
    ClampIsMonotone(128.0, 32768.0, x, y);
    SnapIsMonotone(RAM_SNAPS_MB, Clamp(128.0, 32768.0, x), Clamp(128.0, 32768.0, y));
    RoundIsMonotone((RamMb(p) / 1024.0) * 10000.0, (RamMb(q) / 1024.0) * 10000.0);
  }

  lemma StorageIsMonotone(p: real, q: real)
    requires p <= q
    ensures StorageGb(p) <= StorageGb(q)
  {
    ListsAscend();
    var x, y := 2.0 + (p - 30.0) * (2.0 / 40.0), 2.0 + (q - 30.0) * (2.0 / 40.0);
    ClampIsMonotone(2.0, 50.0, x, y);
    SnapIsMonotone(STORAGE_SNAPS_GB, Clamp(2.0, 50.0, x), Clamp(2.0, 50.0, y));
  }

  lemma OthersAreMonotone(p: real, q: real)
    requires p <= q
    ensures BandwidthTb(p) <= BandwidthTb(q) && AiCredits(p) <= AiCredits(q)
  {
    RoundIsMonotone((p / 70.0) * 10.0, (q / 70.0) * 10.0);
    RoundIsMonotone(p / 5.0, q / 5.0);
  }

  /** A higher price never buys less of anything. */
  lemma DearerIsNoLess(p: Option<real>, q: Option<real>)
    requires Price(p) <= Price(q)
    ensures AtMost(ResourcesFromPrice(p), ResourcesFromPrice(q))
  {
    CpuIsMonotone(Price(p), Price(q));
    RamIsMonotone(Price(p), Price(q));
    StorageIsMonotone(Price(p), Price(q));
    OthersAreMonotone(Price(p), Price(q));
  }

  lemma SnapHits(list: seq<real>, k: nat)
    requires k < |list| && Ascending(list)
    ensures Snap(list, list[k]) == list[k]
  {
    SnapIsNearest(list, list[k]);
  }

  /** The two anchors of the price list, and the values they are documented with. */
  lemma Anchors()
    ensures var r := ResourcesFromPrice(Some(30.0)); r.cpuCores == 0.25 && r.ramMb == 256.0 && r.ramGb == 0.25
    ensures var r := ResourcesFromPrice(Some(70.0)); r.cpuCores == 0.5 && r.ramMb == 512.0 && r.ramGb == 0.5
  {
    ListsAscend();
    SnapHits(RAM_SNAPS_MB, 2);
    SnapHits(RAM_SNAPS_MB, 4);
    RoundOf(5.0, 5);
    RoundOf(10.0, 10);
    RoundOf(2500.0, 2500);
    RoundOf(5000.0, 5000);
  }

  /** The memory is a listed value, and the gigabytes stored in a plan give it back. */
  lemma PlanMemoryComesBack(monthly: Option<real>)
    ensures var r := ResourcesFromPrice(monthly);
            r.ramMb in RAM_SNAPS_MB && RamGbToMb(r.ramGb) as real == r.ramMb
  {
    var mb := RamMb(Price(monthly));
    ListsAscend();
    SnapIsNearest(RAM_SNAPS_MB, Clamp(128.0, 32768.0, 256.0 + (Price(monthly) - 30.0) * (256.0 / 40.0)));
    var k :| 0 <= k < |RAM_SNAPS_MB| && RAM_SNAPS_MB[k] == mb;
    WholeMegabytes(k);
    MegabytesComeBack(mb.Floor);
  }

  lemma WholeMegabytes(k: nat)
    requires k < |RAM_SNAPS_MB|
    ensures RAM_SNAPS_MB[k].Floor as real == RAM_SNAPS_MB[k] >= 128.0
  {
  }

  lemma CpuIsNear(price: real)
    ensures var line := Clamp(0.1, 16.0, 0.25 + (price - 30.0) * (0.25 / 40.0));
            Abs(Cpu(price) - line) <= 0.025 && 0.1 <= Cpu(price) <= 16.0
  {
    var line := Clamp(0.1, 16.0, 0.25 + (price - 30.0) * (0.25 / 40.0));
    ClampIsMonotone(0.1, 16.0, line, line);
    RoundIsNear(line * 20.0);
    RoundIsMonotone(2.0, line * 20.0);
    RoundIsMonotone(line * 20.0, 320.0);
    RoundOf(2.0, 2);
    RoundOf(320.0, 320);
  }

  /** A value between two bounds, or the bound it exceeds. */
  predicate IsClamped(low: real, high: real, x: real, y: real) {
    (low <= x <= high ==> y == x) && (x < low ==> y == low) && (x > high ==> y == high)
  }

  lemma ClampIs(low: real, high: real, x: real, y: real)
    requires low <= high && IsClamped(low, high, x, y)
    ensures y == Clamp(low, high, x)
  {
  }

  lemma FieldsOf(price: real)
    requires price >= 0.0
    ensures var r := ResourcesFromPrice(Some(price));
            && r.cpuCores == Cpu(price) && r.ramMb == RamMb(price) && r.storageGb == StorageGb(price)
            && r.bandwidthTb == BandwidthTb(price) && r.aiCredits == AiCredits(price)
  {
  }

  lemma CpuLine(price: real, line: real)
    requires IsClamped(0.1, 16.0, 0.25 + (price - 30.0) / 160.0, line)
    ensures Abs(Cpu(price) - line) <= 0.025
  {
    ClampIs(0.1, 16.0, 0.25 + (price - 30.0) / 160.0, line);
    CpuIsNear(price);
  }

  /** The CPU share is within half a step of 0.05 of the straight line through 0.25 at 30 and 0.5 at 70, from 0.1
      up to 16. */
  lemma CpuFollowsTheLine(price: real, line: real, cpu: real)
    requires price >= 0.0 && IsClamped(0.1, 16.0, 0.25 + (price - 30.0) / 160.0, line)
    requires cpu == ResourcesFromPrice(Some(price)).cpuCores
    ensures Abs(cpu - line) <= 0.025 && 0.1 <= cpu <= 16.0
  {
    FieldsOf(price);
    CpuLine(price, line);
    CpuIsNear(price);
  }

  /** And it is a multiple of that step. */
  lemma CpuSteps(price: real)
    ensures (Cpu(price) * 20.0).Floor as real == Cpu(price) * 20.0
  {
  }

  /** Memory and storage are the listed sizes nearest to their lines, the lower one of two; memory is 256 MB at
      30 and 512 MB at 70, storage 2 GB at 30 and 4 GB at 70. */
  lemma SizesFollowTheirLines(price: real, ram: real, storage: real, r: Resources)
    requires price >= 0.0 && r == ResourcesFromPrice(Some(price))
    requires IsClamped(128.0, 32768.0, 256.0 + (price - 30.0) * 6.4, ram)
    requires IsClamped(2.0, 50.0, 2.0 + (price - 30.0) / 20.0, storage)
    ensures IsNearestLower(RAM_SNAPS_MB, ram, r.ramMb)
    ensures IsNearestLower([2.0, 3.0, 4.0, 5.0, 6.0, 8.0, 10.0, 12.0, 15.0, 20.0, 25.0, 30.0, 40.0, 50.0],
                           storage, r.storageGb)
  {
    FieldsOf(price);
    RamLine(price, ram);
    StorageLine(price, storage);
  }

  lemma RamLine(price: real, ram: real)
    requires IsClamped(128.0, 32768.0, 256.0 + (price - 30.0) * 6.4, ram)
    ensures IsNearestLower(RAM_SNAPS_MB, ram, RamMb(price))
  {
    ClampIs(128.0, 32768.0, 256.0 + (price - 30.0) * 6.4, ram);
    ListsAscend();
    SnapIsNearest(RAM_SNAPS_MB, ram);
  }

  lemma StorageLine(price: real, storage: real)
    requires IsClamped(2.0, 50.0, 2.0 + (price - 30.0) / 20.0, storage)
    ensures IsNearestLower([2.0, 3.0, 4.0, 5.0, 6.0, 8.0, 10.0, 12.0, 15.0, 20.0, 25.0, 30.0, 40.0, 50.0],
                           storage, StorageGb(price))
  {
    ClampIs(2.0, 50.0, 2.0 + (price - 30.0) / 20.0, storage);
    ListsAscend();
    SnapIsNearest(STORAGE_SNAPS_GB, storage);
  }

  function Doubled(x: real, k: nat): real
    decreases k
  { if k == 0 then x else Doubled(2.0 * x, k - 1)
  }

  /** The listed sizes of memory are 128 and 192 MB, doubled again and again up to 32 GB. */
  lemma MemorySteps()
    ensures |RAM_SNAPS_MB| == 17
    ensures forall k: nat :: k <= 8 ==> RAM_SNAPS_MB[2 * k] == Doubled(128.0, k)
    ensures forall k: nat :: k < 8 ==> RAM_SNAPS_MB[2 * k + 1] == Doubled(192.0, k)
  {
    forall k: nat | k <= 8
      ensures RAM_SNAPS_MB[2 * k] == Doubled(128.0, k) && (k < 8 ==> RAM_SNAPS_MB[2 * k + 1] == Doubled(192.0, k))
    {
      OneStep(k);
    }
  }

  lemma OneStep(k: nat)
    requires k <= 8
    ensures RAM_SNAPS_MB[2 * k] == Doubled(128.0, k) && (k < 8 ==> RAM_SNAPS_MB[2 * k + 1] == Doubled(192.0, k))
  {
    assert Doubled(128.0, 4) == 2048.0 && Doubled(192.0, 4) == 3072.0;
    if k > 4 {
      DoubledMore(128.0, 4, k - 4);
      DoubledMore(192.0, 4, k - 4);
    }
  }

  lemma {:induction false} DoubledMore(x: real, a: nat, b: nat)
    ensures Doubled(x, a + b) == Doubled(Doubled(x, a), b)
    decreases a
  {
    if a > 0 {
      DoubledMore(2.0 * x, a - 1, b);
    }
  }

  lemma BandwidthIsNear(price: real)
    ensures BandwidthTb(price) >= 0.5 && Abs(BandwidthTb(price) - Max(0.5, price / 70.0)) <= 0.05
    ensures (BandwidthTb(price) * 10.0).Floor as real == BandwidthTb(price) * 10.0
  {
    RoundIsNear((price / 70.0) * 10.0);
  }

  lemma CreditsAreNear(price: real)
    ensures AiCredits(price) >= 5 && Abs(AiCredits(price) as real - Max(5.0, price / 5.0)) <= 0.5
  {
    RoundIsNear(price / 5.0);
  }

  /** Bandwidth is a tenth of a terabyte per 7 of the price and credits one per 5, rounded, from half a terabyte
      and five credits up. */
  lemma OthersFollowTheirLines(price: real)
    requires price >= 0.0
    ensures var r := ResourcesFromPrice(Some(price));
            && r.bandwidthTb >= 0.5 && Abs(r.bandwidthTb - Max(0.5, price / 70.0)) <= 0.05
            && (r.bandwidthTb * 10.0).Floor as real == r.bandwidthTb * 10.0
            && r.aiCredits >= 5 && Abs(r.aiCredits as real - Max(5.0, price / 5.0)) <= 0.5
  {
    FieldsOf(price);
    BandwidthIsNear(price);
    CreditsAreNear(price);
  }

  /** What is not a number, and what is below zero, buys the smallest plan. */
  lemma NothingBuysTheLeast(monthly: Option<real>)
    requires monthly.Some? ==> monthly.value <= 0.0
    ensures ResourcesFromPrice(monthly) == Resources(0.1, 0.125, 128.0, 2.0, 0.5, 5)
  {
    ListsAscend();
    SnapHits(RAM_SNAPS_MB, 0);
    SnapHits(STORAGE_SNAPS_GB, 0);
    RoundOf(2.0, 2);
    RoundOf(1250.0, 1250);
    RoundOf(0.0, 0);
  }
}
