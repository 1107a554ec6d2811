/**
 * The transparency score card (app/components/score-card.tsx): the colour band chosen for a
 * score, the colour chosen for the confidence badge, and the text size for each `size` prop.
 * JavaScript numbers are modelled as reals.
 */
module ScoreCard {
  import opened Wrappers

  const ScoreGreen := "text-green-600 bg-green-100"
  const ScoreYellow := "text-yellow-600 bg-yellow-100"
  const ScoreOrange := "text-orange-600 bg-orange-100"
  const ScoreRed := "text-red-600 bg-red-100"

  /** `getScoreColor`: the first threshold the score reaches decides the band. */
  function ScoreColor(score: real): (c: string)
    ensures c == ScoreGreen <==> score >= 80.0
    ensures c == ScoreYellow <==> 60.0 <= score < 80.0
    ensures c == ScoreOrange <==> 40.0 <= score < 60.0
    ensures c == ScoreRed <==> score < 40.0
  {
    if score >= 80.0 then ScoreGreen
    else if score >= 60.0 then ScoreYellow
    else if score >= 40.0 then ScoreOrange
    else ScoreRed
  }

  /** The position of a score colour from the lowest band (red, 0) to the highest (green, 3). */
  function ScoreRank(c: string): nat {
    if c == ScoreGreen then 3
    else if c == ScoreYellow then 2
    else if c == ScoreOrange then 1
    else 0
  }

  /** Every score lands in exactly one of the four bands. */
  lemma ScoreBandsPartition(score: real)
    ensures ScoreColor(score) in {ScoreGreen, ScoreYellow, ScoreOrange, ScoreRed}
  {
  }

  /** Raising the score never moves it to a lower band. */
  lemma ScoreColorMonotone(a: real, b: real)
    requires a <= b
    ensures ScoreRank(ScoreColor(a)) <= ScoreRank(ScoreColor(b))
  {
  }

  const ConfidenceGreen := "bg-green-600"
  const ConfidenceYellow := "bg-yellow-600"
  const ConfidenceRed := "bg-red-600"

  /** `getConfidenceColor`: three bands, with no orange band between yellow and red. */
  function ConfidenceColor(confidence: real): (c: string)
    ensures c == ConfidenceGreen <==> confidence >= 80.0
    ensures c == ConfidenceYellow <==> 60.0 <= confidence < 80.0
    ensures c == ConfidenceRed <==> confidence < 60.0
  {
    if confidence >= 80.0 then ConfidenceGreen
    else if confidence >= 60.0 then ConfidenceYellow
    else ConfidenceRed
  }

  function ConfidenceRank(c: string): nat {
    if c == ConfidenceGreen then 2 else if c == ConfidenceYellow then 1 else 0
  }

  /** Raising the confidence never moves the badge to a lower band. */
  lemma ConfidenceColorMonotone(a: real, b: real)
    requires a <= b
    ensures ConfidenceRank(ConfidenceColor(a)) <= ConfidenceRank(ConfidenceColor(b))
  {
  }

  /** The `size` prop; leaving it out means `Md`. */
  datatype Size = Sm | Md | Lg

  /** `sizeClasses[size]`, with the prop's default applied first. */
  function SizeClass(size: Option<Size>): (c: string)
    ensures size.None? ==> c == "text-2xl"
    ensures size == Some(Sm) ==> c == "text-lg"
    ensures size == Some(Md) ==> c == "text-2xl"
    ensures size == Some(Lg) ==> c == "text-4xl"
  {
    match size.GetOr(Md)
    case Sm => "text-lg"
    case Md => "text-2xl"
    case Lg => "text-4xl"
  }

  /** The three sizes give three different text classes, and leaving the prop out is the same as `Md`. */
  lemma SizeClassesDistinct()
    ensures SizeClass(Some(Sm)) != SizeClass(Some(Md))
    ensures SizeClass(Some(Md)) != SizeClass(Some(Lg))
    ensures SizeClass(Some(Sm)) != SizeClass(Some(Lg))
    ensures SizeClass(None) == SizeClass(Some(Md))
  {
  }
}
