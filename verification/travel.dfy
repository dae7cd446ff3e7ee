/** Travel-time estimates and the transfer radius shared by the portals
    (`getDynamicETA`, `calculateTheniETA`, `getMaxTransferDistance`). */
module Travel {

  /** Transfers are only offered to hospitals within this many kilometres. */
  const MAX_TRANSFER_DISTANCE: real := 85.0

  /** Minutes to cover `distance` km at 45 km/h under a traffic factor of
      1.1 swung by 0.4 of the multiplier's excess over 1, plus 5 minutes. */
  function DynamicEta(distance: real, traffic: real): (m: real)
    ensures distance == 0.0 ==> m == 5.0
    ensures distance >= 0.0 && traffic >= -1.75 ==> m >= 5.0
  {
    var factor := 1.1 + (traffic - 1.0) * 0.4;
    (distance / 45.0) * 60.0 * factor + 5.0
  }

  /** Further is never quicker while the traffic factor stays non-negative
      (any multiplier of at least -1.75). */
  lemma DynamicEtaMonotone(d1: real, d2: real, traffic: real)
    requires d1 <= d2 && traffic >= -1.75
    ensures DynamicEta(d1, traffic) <= DynamicEta(d2, traffic)
  {
    var factor := 1.1 + (traffic - 1.0) * 0.4;
    assert factor >= 0.0;
    assert (d2 / 45.0) * 60.0 - (d1 / 45.0) * 60.0 >= 0.0;
    assert ((d2 / 45.0) * 60.0 - (d1 / 45.0) * 60.0) * factor >= 0.0;
  }

  /** The fixed estimate for the Theni district: 35 km/h, a traffic factor of
      1.5, plus 5 minutes of handling. */
  function TheniEta(distance: real): (m: real)
    ensures distance == 0.0 ==> m == 5.0
    ensures distance >= 0.0 ==> m >= 5.0
  {
    (distance / 35.0) * 60.0 * 1.5 + 5.0
  }

  /** Further is never quicker. */
  lemma TheniEtaMonotone(d1: real, d2: real)
    requires d1 <= d2
    ensures TheniEta(d1) <= TheniEta(d2)
  {
  }

  /** The estimate is invertible: the distance is recovered from the minutes. */
  function TheniDistance(minutes: real): (d: real)
    ensures TheniEta(d) == minutes
  {
    (minutes - 5.0) * 35.0 / 90.0
  }

  lemma TheniDistanceOfEta(distance: real)
    ensures TheniDistance(TheniEta(distance)) == distance
  {
  }

  /** The Theni estimate is the more cautious one: at the same distance it is
      never below the dynamic estimate in free-flowing traffic. */
  lemma TheniAtLeastDynamic(distance: real, traffic: real)
    requires distance >= 0.0 && traffic <= 1.0
    ensures DynamicEta(distance, traffic) <= TheniEta(distance)
  {
    var factor := 1.1 + (traffic - 1.0) * 0.4;
    var x := (distance / 45.0) * 60.0;
    var slack := 1.1 - factor;
    assert x >= 0.0 && slack >= 0.0;
    assert x * slack >= 0.0;
    assert x * factor == x * 1.1 - x * slack;
    assert x * 1.1 <= (distance / 35.0) * 60.0 * 1.5;
  }
}
