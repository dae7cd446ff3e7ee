/** The strategic portal's "critical hospitals distribution": for each zone
    the share of its hospitals that are critical, against fixed zone sizes. */
module CriticalModal {
  import opened Common
  import opened Types

  /** How many hospitals each zone has in the catalog. */
  function ZoneSize(g: Region): (n: nat)
    ensures 24 <= n <= 41
  {
    match g
    case North => 27
    case South => 41
    case East => 24
    case West => 29
    case Central => 29
  }

  /** The order the zones are listed in. */
  const DisplayOrder: seq<Region> := [North, West, Central, East, South]

  lemma DisplayOrderCoversZones()
    ensures |DisplayOrder| == 5
    ensures forall g :: g in DisplayOrder
    ensures forall i, j :: 0 <= i < j < 5 ==> DisplayOrder[i] != DisplayOrder[j]
  {
    forall g: Region ensures g in DisplayOrder {
      match g
      case North => assert DisplayOrder[0] == g;
      case West => assert DisplayOrder[1] == g;
      case Central => assert DisplayOrder[2] == g;
      case East => assert DisplayOrder[3] == g;
      case South => assert DisplayOrder[4] == g;
    }
  }

  /** Critical hospitals listed in zone `g`. */
  function CountIn(critical: seq<LiveHospital>, g: Region): (n: nat)
    ensures n <= |critical|
  {
    if |critical| == 0 then 0
    else (if critical[0].region == g then 1 else 0) + CountIn(critical[1..], g)
  }

  /** Every listed hospital is counted in exactly one zone. */
  lemma {:induction false} CountsPartition(critical: seq<LiveHospital>)
    ensures CountIn(critical, North) + CountIn(critical, South) + CountIn(critical, East)
      + CountIn(critical, West) + CountIn(critical, Central) == |critical|
  {
    if |critical| > 0 {
      CountsPartition(critical[1..]);
    }
  }

  datatype Share = Share(name: Region, percentage: int)

  /** `Math.round(count / size * 100)`. */
  function Percentage(count: nat, g: Region): (p: int)
    ensures p >= 0
    ensures p == 0 <==> count == 0
    ensures count <= ZoneSize(g) ==> p <= 100
    ensures var x := (count as real) / (ZoneSize(g) as real) * 100.0;
      x - 0.5 < p as real <= x + 0.5
  {
    var x := (count as real) / (ZoneSize(g) as real) * 100.0;
    assert count > 0 ==> x >= 2.0 by {
      if count > 0 {
        var s := ZoneSize(g) as real;
        assert (count as real) / s >= 1.0 / s;
        assert 1.0 / s * 100.0 >= 2.0;
      }
    }
    assert count <= ZoneSize(g) ==> x <= 100.0 by {
      if count <= ZoneSize(g) {
        assert (count as real) / (ZoneSize(g) as real) <= 1.0;
      }
    }
    Round(x)
  }

  /** Five rows, one per zone in display order. */
  function RegionalShares(critical: seq<LiveHospital>): (r: seq<Share>)
    ensures |r| == 5
    ensures forall k :: 0 <= k < 5 ==> r[k].name == DisplayOrder[k]
    ensures forall k :: 0 <= k < 5 ==> (r[k].percentage == 0 <==> CountIn(critical, DisplayOrder[k]) == 0)
    ensures forall k :: 0 <= k < 5 ==> r[k].percentage >= 0
    ensures forall k :: 0 <= k < 5 ==> r[k].percentage == Percentage(CountIn(critical, DisplayOrder[k]), DisplayOrder[k])
    ensures forall k :: 0 <= k < 5 ==>
      var x := (CountIn(critical, DisplayOrder[k]) as real) / (ZoneSize(DisplayOrder[k]) as real) * 100.0;
      x - 0.5 < r[k].percentage as real <= x + 0.5
  {
    seq(5, k requires 0 <= k < 5 => Share(DisplayOrder[k], Percentage(CountIn(critical, DisplayOrder[k]), DisplayOrder[k])))
  }

  /** When the list holds no more of a zone's hospitals than the zone has,
      every share is at most 100 %. */
  lemma SharesAtMostHundred(critical: seq<LiveHospital>)
    requires forall g :: CountIn(critical, g) <= ZoneSize(g)
    ensures forall k :: 0 <= k < 5 ==> RegionalShares(critical)[k].percentage <= 100
  {
  }

  /** Nothing else caps a share: 42 critical hospitals in the South show as
      102 %. */
  lemma ShareCanExceedHundred(critical: seq<LiveHospital>)
    requires CountIn(critical, South) == 42
    ensures RegionalShares(critical)[4].percentage == 102
  {
    assert (42 as real) / (41 as real) * 100.0 == 4200.0 / 41.0;
  }

  /** One more critical hospital in a zone never lowers its share. */
  lemma PercentageMonotone(a: nat, b: nat, g: Region)
    requires a <= b
    ensures Percentage(a, g) <= Percentage(b, g)
  {
    var s := ZoneSize(g) as real;
    assert (a as real) / s <= (b as real) / s;
    assert (a as real) / s * 100.0 <= (b as real) / s * 100.0;
  }
}
