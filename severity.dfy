/** Accident severity: the training target derived from the casualty count, and
    the serving-side table from class id to the label shown to the user. */
module Severity {
  import opened Wrappers

  /** `categorize_severity(casualties)`: 0 (Low), 1 (Medium) or 2 (High). */
  function SeverityClass(casualties: int): (c: int)
    ensures 0 <= c <= 2
  {
    if casualties <= 2 then 0
    else if 3 <= casualties <= 6 then 1
    else 2
  }

  /** The three bands, each as an if-and-only-if: at most 2 casualties is Low, 3 to 6
      is Medium, 7 or more is High. */
  lemma SeverityBands(casualties: int)
    ensures SeverityClass(casualties) == 0 <==> casualties <= 2
    ensures SeverityClass(casualties) == 1 <==> 3 <= casualties <= 6
    ensures SeverityClass(casualties) == 2 <==> casualties >= 7
  {
  }

  /** More casualties never give a lower class. */
  lemma SeverityMonotone(m: int, n: int)
    requires m <= n
    ensures SeverityClass(m) <= SeverityClass(n)
  {
  }

  /** The cut points on both sides of each boundary. */
  lemma SeverityBoundaries()
    ensures SeverityClass(2) == 0 && SeverityClass(3) == 1
    ensures SeverityClass(6) == 1 && SeverityClass(7) == 2
  {
  }

  const LowLabel := "Low (0-2 Casualties)"
  const MediumLabel := "Medium (3-6 Casualties)"
  const HighLabel := "High (7+ Casualties)"

  /** The `severity` dictionary of the prediction handler, looked up with the
      classifier's output; `None` where the lookup raises `KeyError`. */
  function SeverityLabel(k: int): Option<string> {
    if k == 0 then Some(LowLabel)
    else if k == 1 then Some(MediumLabel)
    else if k == 2 then Some(HighLabel)
    else None
  }

  /** Exactly the classes 0, 1 and 2 have a label, and the three labels differ. */
  lemma SeverityLabelDomain(k: int)
    ensures SeverityLabel(k).Some? <==> 0 <= k <= 2
    ensures SeverityLabel(k).Some? ==> SeverityLabel(k).value in {LowLabel, MediumLabel, HighLabel}
    ensures LowLabel != MediumLabel && MediumLabel != HighLabel && LowLabel != HighLabel
  {
  }

  /** Every class the training target can take has a label, and the label names
      the casualty band the count falls in. */
  lemma TrainingClassesHaveLabels(casualties: int)
    ensures SeverityLabel(SeverityClass(casualties)).Some?
    ensures casualties <= 2 ==> SeverityLabel(SeverityClass(casualties)) == Some(LowLabel)
    ensures 3 <= casualties <= 6 ==> SeverityLabel(SeverityClass(casualties)) == Some(MediumLabel)
    ensures casualties >= 7 ==> SeverityLabel(SeverityClass(casualties)) == Some(HighLabel)
  {
  }
}
