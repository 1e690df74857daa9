/**
 * `EventFrequency`: how often a blueprint is drawn. The raw value is the
 * number of copies the blueprint puts into the round pool.
 */
module EventFrequencies {
  import CaseWrappable

  datatype EventFrequency = Off | Low | Medium | High

  /** `allCases`, in declaration order. */
  const AllFrequencies: seq<EventFrequency> := [Off, Low, Medium, High]

  /** `rawValue`: the weight, which is also the case's position in `allCases`. */
  function RawValue(f: EventFrequency): (r: nat)
    ensures r < |AllFrequencies| && AllFrequencies[r] == f
  {
    match f
    case Off => 0
    case Low => 1
    case Medium => 2
    case High => 3
  }

  /** `display`. */
  function Display(f: EventFrequency): (s: string)
  {
    match f
    case Off => "Off"
    case Low => "Low"
    case Medium => "Medium"
    case High => "High"
  }

  /** `next`, through `CaseWrappable`. */
  function Next(f: EventFrequency): (r: EventFrequency)
  {
    assert AllFrequencies[RawValue(f)] == f;
    CaseWrappable.Next(AllFrequencies, f)
  }

  /** `next` cycles off, low, medium, high and back to off. */
  lemma NextCycles()
    ensures Next(Off) == Low && Next(Low) == Medium && Next(Medium) == High && Next(High) == Off
  {
    CaseWrappable.NextOfOther(AllFrequencies, 0);
    CaseWrappable.NextOfOther(AllFrequencies, 1);
    CaseWrappable.NextOfOther(AllFrequencies, 2);
    CaseWrappable.NextOfLast(AllFrequencies);
  }

  /** Four presses of the frequency toggle bring a blueprint back to where it was. */
  lemma NextFourTimes(f: EventFrequency)
    ensures f in AllFrequencies && CaseWrappable.Iterate(AllFrequencies, f, 4) == f
  {
    assert AllFrequencies[RawValue(f)] == f;
    CaseWrappable.FullCycle(AllFrequencies, f);
  }

  /** Only `off` has weight zero, and the weights increase strictly in declaration order. */
  lemma RawValueOrder()
    ensures forall f :: RawValue(f) == 0 <==> f == Off
    ensures forall i, j :: 0 <= i < j < |AllFrequencies| ==> RawValue(AllFrequencies[i]) < RawValue(AllFrequencies[j])
  {
  }

  /** The four display strings are pairwise different. */
  lemma DisplayInjective(f: EventFrequency, g: EventFrequency)
    ensures Display(f) == Display(g) <==> f == g
  {
  }
}
