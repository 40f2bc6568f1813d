/** The application's records and enumerations (types.ts). */
module Types {
  import opened Outcomes

  /** The seven French school years, from sixième to terminale. */
  datatype Level = Sixieme | Cinquieme | Quatrieme | Troisieme | Seconde | Premiere | Terminale

  /** The string each level is written as in the source. */
  function LevelValue(l: Level): string {
    match l
    case Sixieme => "6eme"
    case Cinquieme => "5eme"
    case Quatrieme => "4eme"
    case Troisieme => "3eme"
    case Seconde => "2nde"
    case Premiere => "1ere"
    case Terminale => "Terminale"
  }

  /** The position of a level in the school curriculum, 6eme first. */
  function LevelRank(l: Level): (r: nat)
    ensures r < 7
  {
    match l
    case Sixieme => 0
    case Cinquieme => 1
    case Quatrieme => 2
    case Troisieme => 3
    case Seconde => 4
    case Premiere => 5
    case Terminale => 6
  }

  datatype Category = Algebre | Geometrie | Analyse | Probabilites | Statistiques

  function CategoryName(c: Category): string {
    match c
    case Algebre => "Algebre"
    case Geometrie => "Geometrie"
    case Analyse => "Analyse"
    case Probabilites => "Probabilites"
    case Statistiques => "Statistiques"
  }

  /** Exercise tiers, easiest first. */
  datatype Difficulty = Bronze | Argent | Or

  datatype Role = User | Model

  function RoleName(r: Role): string {
    match r
    case User => "user"
    case Model => "model"
  }

  /** The outcome of checking an answer: `'correct' | 'wrong'`. */
  datatype Verdict = Correct | Wrong

  /** A subject name with its mastery score (documented as 0 to 100, which
      nothing enforces). The entries keep their insertion order, as the
      source's object literal does. */
  datatype Strength = Strength(subject: string, value: int)

  /** The user's profile. Days are integer day numbers. The declared
      interface in types.ts lacks `streak` and `lastActiveDate`, which the
      application reads and writes all the same; they are fields here. */
  datatype UserProfile = UserProfile(
    email: string,
    name: string,
    level: Level,
    xp: int,
    streak: int,
    lastActiveDate: Option<int>,
    badges: seq<string>,
    strengths: seq<Strength>)

  datatype Lesson = Lesson(
    id: string,
    title: string,
    level: Level,
    category: Category,
    summary: string,
    content: string,
    videoUrl: Option<string>)

  datatype Exercise = Exercise(
    id: string,
    lessonId: string,
    difficulty: Difficulty,
    question: string,
    hints: seq<string>,
    solution: string,
    explanation: string)

  /** One turn of the tutor conversation; `timestamp` is `Date.now()`. */
  datatype ChatMessage = ChatMessage(role: Role, text: string, timestamp: int)

  /** No two levels share a string or a curriculum rank. */
  lemma LevelValuesDistinct(l: Level, m: Level)
    ensures LevelValue(l) == LevelValue(m) ==> l == m
    ensures LevelRank(l) == LevelRank(m) ==> l == m
  {
  }
}
