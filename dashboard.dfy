/** The home page (pages/Dashboard.tsx): the strengths chart, the lycée
    colour switch, the streak counter and the lessons recommended for the
    student's level. */
module Dashboard {
  import opened Types
  import opened Collections
  import Constants
  import App

  // ---------------------------------------------------------------------
  // The strengths chart

  /** One spoke of the radar chart. */
  datatype RadarPoint = RadarPoint(subject: string, value: int, fullMark: int)

  /** Every spoke's scale ends at 100. */
  const FullMark := 100

  /** `radarData`: one spoke per strength, in the order of the profile's
      entries, its value copied, its scale 100. */
  function RadarData(strengths: seq<Strength>): (r: seq<RadarPoint>)
    ensures |r| == |strengths|
    ensures forall i :: 0 <= i < |r| ==>
              r[i].subject == strengths[i].subject && r[i].value == strengths[i].value && r[i].fullMark == FullMark
  {
    seq(|strengths|, i requires 0 <= i < |strengths| => RadarPoint(strengths[i].subject, strengths[i].value, FullMark))
  }

  /** The chart gives back the profile's strengths: reading subject and value
      off each spoke recovers them, so no entry is lost, merged or moved. */
  lemma RadarDataRecoversStrengths(strengths: seq<Strength>)
    ensures var r := RadarData(strengths);
            seq(|r|, i requires 0 <= i < |r| => Strength(r[i].subject, r[i].value)) == strengths
  {
  }

  /** A new profile's chart: the four subjects, each at 50 of 100. */
  lemma NewProfileRadar(email: string, level: Level, today: int)
    ensures RadarData(App.NewProfile(email, level, today).strengths) ==
              [RadarPoint("Algèbre", 50, 100), RadarPoint("Géométrie", 50, 100),
               RadarPoint("Probabilités", 50, 100), RadarPoint("Statistiques", 50, 100)]
  {
    var r := RadarData(App.StartingStrengths);
    assert r[0] == RadarPoint("Algèbre", 50, 100);
  }

  // ---------------------------------------------------------------------
  // Lycée

  /** `['2nde', '1ere', 'Terminale'].includes(profile.level)`. */
  predicate IsLycee(level: Level) {
    LevelValue(level) in ["2nde", "1ere", "Terminale"]
  }

  /** The lycée years are the last three of the curriculum. */
  lemma IsLyceeIffUpperYears(level: Level)
    ensures IsLycee(level) <==> LevelRank(level) >= 4
  {
    match level
    case Sixieme => assert LevelValue(level)[0] == '6';
    case Cinquieme => assert LevelValue(level)[0] == '5';
    case Quatrieme => assert LevelValue(level)[0] == '4';
    case Troisieme => assert LevelValue(level)[0] == '3';
    case Seconde =>
    case Premiere =>
    case Terminale =>
  }

  // ---------------------------------------------------------------------
  // The streak counter

  /** The unit after the streak count: singular up to 1, plural above. */
  function StreakUnit(streak: int): (r: string)
    ensures r == "Jours" <==> streak > 1
    ensures r == "Jour" <==> streak <= 1
  {
    if streak > 1 then "Jours" else "Jour"
  }

  /** A new profile shows one day; the next day's visit makes it plural. */
  lemma StreakUnitFirstDays(email: string, level: Level, today: int)
    ensures StreakUnit(App.NewProfile(email, level, today).streak) == "Jour"
    ensures StreakUnit(App.StreakUpdate(App.NewProfile(email, level, today), today + 1).streak) == "Jours"
  {
  }

  // ---------------------------------------------------------------------
  // Recommended lessons

  /** `levelAppropriateLessons`. */
  function LevelLessons(lessons: seq<Lesson>, level: Level): (r: seq<Lesson>)
    ensures IsSubsequence(r, lessons)
    ensures forall i :: 0 <= i < |r| ==> r[i].level == level
    ensures forall i :: 0 <= i < |lessons| && lessons[i].level == level ==> lessons[i] in r
  {
    FilterIsSubsequence(lessons, (l: Lesson) => l.level == level);
    Filter(lessons, (l: Lesson) => l.level == level)
  }

  /** `displayLessons`: the lessons at the level, or every lesson when the
      level has none. */
  function Recommended(lessons: seq<Lesson>, level: Level): (r: seq<Lesson>)
    ensures (exists i :: 0 <= i < |lessons| && lessons[i].level == level) ==>
              && IsSubsequence(r, lessons)
              && (forall i :: 0 <= i < |r| ==> r[i].level == level)
              && (forall i :: 0 <= i < |lessons| && lessons[i].level == level ==> lessons[i] in r)
    ensures (forall i :: 0 <= i < |lessons| ==> lessons[i].level != level) ==> r == lessons
  {
    var own := LevelLessons(lessons, level);
    if |own| > 0 then own
    else
      assert forall i :: 0 <= i < |lessons| ==> lessons[i].level != level;
      lessons
  }

  /** `displayLessons.slice(0, 3)`: the first three recommended lessons, or
      all of them when there are fewer. */
  function Shown(lessons: seq<Lesson>, level: Level): (r: seq<Lesson>)
    ensures |r| <= 3
    ensures |r| == 3 || r == Recommended(lessons, level)
    ensures |r| <= |Recommended(lessons, level)|
    ensures r == Recommended(lessons, level)[..|r|]
  {
    var rec := Recommended(lessons, level);
    if |rec| <= 3 then rec else rec[..3]
  }

  /** When the level's lessons are exactly the two at positions `k` and
      `k + 1`, those two are shown, in order, with no fallback. */
  lemma PairShown(lessons: seq<Lesson>, level: Level, k: nat)
    requires k + 2 <= |lessons|
    requires lessons[k].level == level && lessons[k + 1].level == level
    requires forall i :: 0 <= i < |lessons| && (i < k || k + 2 <= i) ==> lessons[i].level != level
    ensures Shown(lessons, level) == [lessons[k], lessons[k + 1]]
  {
    FilterBlock(lessons, k, k + 2, (l: Lesson) => l.level == level);
    assert lessons[k..k + 2] == [lessons[k], lessons[k + 1]];
  }

  /** The library holds two lessons per level, levels in curriculum order:
      the level's lessons are the two at positions `2 * rank` and
      `2 * rank + 1`. */
  lemma LibraryLevels(level: Level)
    ensures 2 * LevelRank(level) + 2 <= |Constants.MockLessons|
    ensures Constants.MockLessons[2 * LevelRank(level)].level == level
    ensures Constants.MockLessons[2 * LevelRank(level) + 1].level == level
    ensures forall i :: 0 <= i < |Constants.MockLessons| ==>
              (Constants.MockLessons[i].level == level <==> i / 2 == LevelRank(level))
  {
  }

  /** With the library as shipped the fallback to every lesson never
      happens: the page shows the level's own two lessons, in library
      order. */
  lemma LibraryRecommendsOwnLevel(level: Level)
    ensures Shown(Constants.MockLessons, level) ==
              [Constants.MockLessons[2 * LevelRank(level)], Constants.MockLessons[2 * LevelRank(level) + 1]]
  {
    LibraryLevels(level);
    PairShown(Constants.MockLessons, level, 2 * LevelRank(level));
  }
}
