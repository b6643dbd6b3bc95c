/** The derived fields both course builders fill in the same way. */
module CourseMetadata {

  /** Minutes a course is expected to take per hole. */
  const MinutesPerHole: int := 20

  /** The placeholder rating of a built course, 4.0 stars, in tenths. */
  const BuiltCourseRating: int := 40

  function Duration(holes: int): int {
    holes * MinutesPerHole
  }

  /** Up to 6 holes is "Easy", up to 12 "Medium", anything longer "Hard". */
  function Difficulty(holes: int): (d: string)
    ensures d == "Easy" <==> holes <= 6
    ensures d == "Medium" <==> 6 < holes <= 12
    ensures d == "Hard" <==> 12 < holes
  {
    if holes <= 6 then "Easy" else if holes <= 12 then "Medium" else "Hard"
  }
}
