/** The crowd-level classifier: a passenger count against a capacity,
    banded at 50% and 80%. */
module CrowdLevel {

  datatype Level = Low | Moderate | High {

    /** The label the backend stores and compares. */
    function Name(): string {
      match this
      case Low => LowLabel
      case Moderate => ModerateLabel
      case High => HighLabel
    }

    /** Position in the order LOW < MODERATE < HIGH. */
    function Rank(): nat {
      match this
      case Low => 0
      case Moderate => 1
      case High => 2
    }
  }

  const LowLabel := "LOW"
  const ModerateLabel := "MODERATE"
  const HighLabel := "HIGH"

  /** The capacity the registry classifies against. */
  const DefaultCapacity := 50

  predicate IsLabel(s: string) {
    s == LowLabel || s == ModerateLabel || s == HighLabel
  }

  /** Occupancy in percent, computed exactly. A zero capacity is a division
      by zero in the backend, so it is excluded. */
  function Percentage(count: int, capacity: int): (percentage: real)
    requires capacity != 0
    ensures percentage * capacity as real == 100.0 * count as real
  {
    (count as real / capacity as real) * 100.0
  }

  function Classify(count: int, capacity: int): Level
    requires capacity != 0
  {
    var percentage := Percentage(count, capacity);
    if percentage < 50.0 then Low
    else if percentage < 80.0 then Moderate
    else High
  }

  /** Below a threshold of t percent exactly when 100 * count < t * capacity. */
  lemma PercentageBelow(count: int, capacity: int, t: int)
    requires capacity > 0
    ensures Percentage(count, capacity) < t as real <==> 100 * count < t * capacity
  {
    var q := count as real / capacity as real;
    var c := capacity as real;
    assert q * c == count as real;
    assert Percentage(count, capacity) == q * 100.0;
    if q * 100.0 < t as real {
      assert q * 100.0 * c < t as real * c;
      assert (100 * count) as real < (t * capacity) as real;
    } else {
      assert q * 100.0 * c >= t as real * c;
      assert (100 * count) as real >= (t * capacity) as real;
    }
  }

  /** The classifier over integers: the band rule without division. */
  lemma ClassifyIntegerRule(count: int, capacity: int)
    requires capacity > 0
    ensures Classify(count, capacity) == Low <==> 100 * count < 50 * capacity
    ensures Classify(count, capacity) == Moderate <==> 50 * capacity <= 100 * count < 80 * capacity
    ensures Classify(count, capacity) == High <==> 80 * capacity <= 100 * count
  {
    PercentageBelow(count, capacity, 50);
    PercentageBelow(count, capacity, 80);
  }

  /** Every classification carries one of the three labels. */
  lemma ClassifyIsLabelled(count: int, capacity: int)
    requires capacity != 0
    ensures IsLabel(Classify(count, capacity).Name())
  {
  }

  /** A larger count never yields a lower level. */
  lemma ClassifyMonotone(count1: int, count2: int, capacity: int)
    requires capacity > 0
    requires count1 <= count2
    ensures Classify(count1, capacity).Rank() <= Classify(count2, capacity).Rank()
  {
    ClassifyIntegerRule(count1, capacity);
    ClassifyIntegerRule(count2, capacity);
  }

  /** A full or overfull bus is HIGH. */
  lemma ClassifyAtCapacityIsHigh(count: int, capacity: int)
    requires capacity > 0
    requires capacity <= count
    ensures Classify(count, capacity) == High
  {
    ClassifyIntegerRule(count, capacity);
  }

  /** Negative counts are not rejected; they classify as LOW. */
  lemma ClassifyNegativeIsLow(count: int, capacity: int)
    requires capacity > 0
    requires count < 0
    ensures Classify(count, capacity) == Low
  {
    ClassifyIntegerRule(count, capacity);
  }

  /** The bands at the default capacity: 0..24 LOW, 25..39 MODERATE, 40 and up HIGH. */
  lemma DefaultCapacityBands(count: int)
    ensures Classify(count, DefaultCapacity) == Low <==> count <= 24
    ensures Classify(count, DefaultCapacity) == Moderate <==> 25 <= count <= 39
    ensures Classify(count, DefaultCapacity) == High <==> 40 <= count
  {
    ClassifyIntegerRule(count, DefaultCapacity);
  }
}
