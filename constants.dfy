/** The static reference tables (constants.ts): the school levels, the
    lessons and the exercises of each lesson, copied from the source as they
    are written there. */
module Constants {
  import opened Outcomes
  import opened Types
  import opened Collections

  /** One entry of `LEVELS`: the level, its display label (`label` in the source) and its cycle. */
  datatype LevelInfo = LevelInfo(value: Level, name: string, cycle: string)

  const Levels: seq<LevelInfo> := [
    LevelInfo(Sixieme, "6ème", "Cycle 3"),
    LevelInfo(Cinquieme, "5ème", "Cycle 4"),
    LevelInfo(Quatrieme, "4ème", "Cycle 4"),
    LevelInfo(Troisieme, "3ème", "Cycle 4"),
    LevelInfo(Seconde, "Seconde", "Lycée"),
    LevelInfo(Premiere, "Première", "Lycée"),
    LevelInfo(Terminale, "Terminale", "Lycée")
  ]

  // The lesson texts, one constant each.

  const SummaryL6_1: string := "Comprendre la notion de partage et d'écriture fractionnaire."
  const ContentL6_1: string := "Une fraction représente le partage d'une unité en parts égales.\n    \n**Exemple :** $\\frac{3}{4}$ signifie que l'on a pris 3 parts d'une unité coupée en 4.\n- Le chiffre du haut est le **numérateur**.\n- Le chiffre du bas est le **dénominateur**."
  const SummaryL6_2: string := "Apprendre à nommer et mesurer les angles avec un rapporteur."
  const ContentL6_2: string := "Un angle est une portion de plan délimitée par deux demi-droites de même origine.\n- Un angle **aigu** mesure moins de $90^\\circ$.\n- Un angle **droit** mesure exactement $90^\\circ$.\n- Un angle **obtus** mesure entre $90^\\circ$ et $180^\\circ$."
  const SummaryL5_1: string := "Apprendre l'ordre des calculs dans une expression complexe."
  const ContentL5_1: string := "Dans une expression sans parenthèses, on effectue :\n1. Les **multiplications** et les **divisions**.\n2. Les **additions** et les **soustractions** de gauche à droite.\n\nS'il y a des parenthèses, on commence par les calculs les plus intérieurs."
  const SummaryL5_2: string := "Introduction aux nombres négatifs et leur position sur une droite graduée."
  const ContentL5_2: string := "Un nombre relatif est composé d'un signe (+ ou -) et d'une distance à zéro.\n- Pour additionner deux nombres de même signe, on garde le signe et on additionne les distances.\n- Pour deux nombres de signes contraires, on prend le signe de celui qui a la plus grande distance et on soustrait les distances."
  const SummaryL4_1: string := "Calculer la longueur d'un côté dans un triangle rectangle."
  const ContentL4_1: string := "Dans un triangle rectangle, le carré de l'hypoténuse est égal à la somme des carrés des deux autres côtés.\n    \nSi $ABC$ est rectangle en $A$, alors :\n$BC^2 = AB^2 + AC^2$"
  const SummaryL4_2: string := "Utiliser les exposants pour écrire de très grands ou très petits nombres."
  const ContentL4_2: string := "L'expression $10^n$ représente un 1 suivi de $n$ zéros.\n- $10^3 = 1000$\n- $10^{-2} = 0,01$\n- Notation scientifique : $a \\times 10^n$ où $1 \\leq a < 10$."
  const SummaryL1: string := "Maîtriser les développements rapides avec les formules clés."
  const ContentL1: string := "Les trois identités remarquables à connaître par cœur :\n    \n1. $(a + b)^2 = a^2 + 2ab + b^2$\n2. $(a - b)^2 = a^2 - 2ab + b^2$\n3. $(a - b)(a + b) = a^2 - b^2$"
  const SummaryL3_2: string := "Calculer des longueurs dans des triangles emboîtés."
  const ContentL3_2: string := "Si deux droites $(BM)$ et $(CN)$ sont sécantes en $A$, et si $(MN) // (BC)$, alors :\n    \n$\\frac{AM}{AB} = \\frac{AN}{AC} = \\frac{MN}{BC}$"
  const SummaryL2: string := "Étude de la fonction $f(x) = x^2$ et sa représentation graphique."
  const ContentL2: string := "La fonction carrée est définie sur $\\mathbb{R}$ par $f(x) = x^2$.\n- Sa courbe est une **parabole**.\n- Elle est décroissante sur $]-\\infty; 0]$ et croissante sur $[0; +\\infty[$."
  const SummaryL2_2: string := "Translation et coordonnées de vecteurs."
  const ContentL2_2: string := "Un vecteur $\\vec{u}$ est défini par une direction, un sens et une norme.\n- Relation de Chasles : $\\vec{AB} + \\vec{BC} = \\vec{AC}$\n- Coordonnées : $\\vec{AB}(x_B - x_A ; y_B - y_A)$"
  const SummaryL1_1: string := "Calculer le coefficient directeur de la tangente en un point."
  const ContentL1_1: string := "Le nombre dérivé $f'(a)$ est la limite du taux d'accroissement quand $h$ tend vers 0.\n    \nFormules usuelles :\n- Si $f(x) = x^n$, alors $f'(x) = nx^{n-1}$.\n- Si $f(x) = \\frac{1}{x}$, alors $f'(x) = -\\frac{1}{x^2}$."
  const SummaryL1_2: string := "Suites arithmétiques et géométriques."
  const ContentL1_2: string := "Une suite $(u_n)$ est une fonction de $\\mathbb{N}$ vers $\\mathbb{R}$.\n- Arithmétique : $u_{n+1} = u_n + r$\n- Géométrique : $u_{n+1} = u_n \\times q$"
  const SummaryL3: string := "Introduction à l'ensemble $\\mathbb{C}$ et au nombre $i$."
  const ContentL3: string := "Dans $\\mathbb{C}$, il existe $i$ tel que $i^2 = -1$.\nTout complexe s'écrit sous forme algébrique $z = a + ib$."
  const SummaryLT_2: string := "Calcul d'aires sous la courbe et primitives."
  const ContentLT_2: string := "L'intégrale d'une fonction $f$ entre $a$ et $b$ est notée $\\int_{a}^{b} f(x) dx$.\nElle correspond à l'aire sous la courbe si $f(x) \\geq 0$."

  const LessonL6_1: Lesson := Lesson("l_6_1", "Les Fractions simples", Sixieme, Algebre, SummaryL6_1, ContentL6_1, None)
  const LessonL6_2: Lesson := Lesson("l_6_2", "Angles et Mesures", Sixieme, Geometrie, SummaryL6_2, ContentL6_2, None)
  const LessonL5_1: Lesson := Lesson("l_5_1", "Priorités Opératoires", Cinquieme, Algebre, SummaryL5_1, ContentL5_1, None)
  const LessonL5_2: Lesson := Lesson("l_5_2", "Nombres Relatifs", Cinquieme, Algebre, SummaryL5_2, ContentL5_2, None)
  const LessonL4_1: Lesson := Lesson("l_4_1", "Théorème de Pythagore", Quatrieme, Geometrie, SummaryL4_1, ContentL4_1, None)
  const LessonL4_2: Lesson := Lesson("l_4_2", "Puissances de 10", Quatrieme, Algebre, SummaryL4_2, ContentL4_2, None)
  const LessonL1: Lesson := Lesson("l1", "Identités Remarquables", Troisieme, Algebre, SummaryL1, ContentL1, None)
  const LessonL3_2: Lesson := Lesson("l_3_2", "Théorème de Thalès", Troisieme, Geometrie, SummaryL3_2, ContentL3_2, None)
  const LessonL2: Lesson := Lesson("l2", "Fonction Carrée", Seconde, Analyse, SummaryL2, ContentL2, None)
  const LessonL2_2: Lesson := Lesson("l_2_2", "Vecteurs du Plan", Seconde, Geometrie, SummaryL2_2, ContentL2_2, None)
  const LessonL1_1: Lesson := Lesson("l_1_1", "La Dérivation", Premiere, Analyse, SummaryL1_1, ContentL1_1, None)
  const LessonL1_2: Lesson := Lesson("l_1_2", "Suites Numériques", Premiere, Analyse, SummaryL1_2, ContentL1_2, None)
  const LessonL3: Lesson := Lesson("l3", "Nombres Complexes", Terminale, Analyse, SummaryL3, ContentL3, None)
  const LessonLT_2: Lesson := Lesson("l_t_2", "Calcul Intégral", Terminale, Analyse, SummaryLT_2, ContentLT_2, None)

  const MockLessons: seq<Lesson> := [
    LessonL6_1,
    LessonL6_2,
    LessonL5_1,
    LessonL5_2,
    LessonL4_1,
    LessonL4_2,
    LessonL1,
    LessonL3_2,
    LessonL2,
    LessonL2_2,
    LessonL1_1,
    LessonL1_2,
    LessonL3,
    LessonLT_2
  ]

  const ExercisesL6_1: seq<Exercise> := [
    Exercise("e_6_1", "l_6_1", Bronze,
      "Si je mange $\\frac{1}{4}$ d'un gâteau, combien de parts reste-t-il sur 4 ?",
      ["Le total est $\\frac{4}{4}$", "Fais la soustraction $4 - 1$"],
      "3",
      "Le gâteau entier représente $\\frac{4}{4}$. Si on enlève $\\frac{1}{4}$, il reste $4 - 1 = 3$ parts."),
    Exercise("e_6_2", "l_6_1", Argent,
      "Quelle est la fraction simplifiée de $\\frac{10}{20}$ ?",
      ["Divise le haut et le bas par 10"],
      "1/2",
      "Pour simplifier $\\frac{10}{20}$, on divise le numérateur et le dénominateur par leur plus grand diviseur commun, ici 10. $10 \\div 10 = 1$ et $20 \\div 10 = 2$.")
  ]

  const ExercisesL5_1: seq<Exercise> := [
    Exercise("e_5_1", "l_5_1", Bronze,
      "Calculer : $5 + 3 \\times 2$",
      ["La multiplication est prioritaire"],
      "11",
      "On effectue d'abord la multiplication : $3 \\times 2 = 6$. Puis l'addition : $5 + 6 = 11$. L'erreur classique est de faire $5 + 3$ d'abord."),
    Exercise("e_5_2", "l_5_1", Argent,
      "Calculer : $(10 - 2) \\times 3$",
      ["Les parenthèses sont prioritaires"],
      "24",
      "On calcule d'abord ce qui est entre parenthèses : $10 - 2 = 8$. Puis on multiplie : $8 \\times 3 = 24$.")
  ]

  const ExercisesL4_1: seq<Exercise> := [
    Exercise("e_4_1", "l_4_1", Bronze,
      "Dans un triangle rectangle, si les côtés de l'angle droit valent 3 et 4, combien vaut l'hypoténuse ?",
      ["Calcule $3^2 + 4^2$", "Cherche la racine carrée du résultat"],
      "5",
      "On applique Pythagore : $3^2 + 4^2 = 9 + 16 = 25$. La racine carrée de 25 est 5.")
  ]

  const ExercisesL1: seq<Exercise> := [
    Exercise("e1", "l1", Bronze,
      "Développer l'expression : $(x + 4)^2$",
      ["Utilise $(a+b)^2 = a^2 + 2ab + b^2$"],
      "x^2 + 8x + 16",
      "On utilise l'identité remarquable $(a+b)^2 = a^2 + 2ab + b^2$ avec $a=x$ et $b=4$. On obtient $x^2 + 2 \\times x \\times 4 + 4^2$, ce qui donne $x^2 + 8x + 16$."),
    Exercise("e1_2", "l1", Argent,
      "Développer $(2x - 3)^2$",
      ["Utilise $(a-b)^2 = a^2 - 2ab + b^2$"],
      "4x^2 - 12x + 9",
      "Avec $a=2x$ et $b=3$, on a $(2x)^2 - 2(2x)(3) + 3^2$, donc $4x^2 - 12x + 9$."),
    Exercise("e1_3", "l1", Or,
      "Calculer $99^2$ en utilisant les identités remarquables.",
      ["99 = 100 - 1", "Utilise $(a-b)^2$"],
      "9801",
      "$99^2 = (100 - 1)^2 = 100^2 - 2 \\times 100 \\times 1 + 1^2 = 10000 - 200 + 1 = 9801$.")
  ]

  const ExercisesL1_1: seq<Exercise> := [
    Exercise("e_1_1", "l_1_1", Bronze,
      "Quelle est la dérivée de $f(x) = x^2$ ?",
      ["Applique la formule $nx^{n-1}$ avec $n=2$"],
      "2x",
      "La dérivée de $x^n$ est $nx^{n-1}$. Pour $n=2$, on a $2x^{2-1} = 2x$."),
    Exercise("e_1_2", "l_1_1", Argent,
      "Dériver $g(x) = 5x^3$",
      ["Le coefficient 5 reste devant"],
      "15x^2",
      "On dérive $x^3$ en $3x^2$ et on multiplie par le coefficient 5 : $5 \\times 3x^2 = 15x^2$.")
  ]

  const ExercisesL3: seq<Exercise> := [
    Exercise("e3", "l3", Argent,
      "Calculer $(2i)^2$",
      ["Rappelle-toi que $i^2 = -1$", "$(2i)^2 = 2^2 \\times i^2$"],
      "-4",
      "On élève chaque facteur au carré : $(2i)^2 = 2^2 \\times i^2$. On sait que $2^2 = 4$ et $i^2 = -1$, donc $4 \\times (-1) = -4$. L'erreur classique est d'oublier le signe moins."),
    Exercise("e3_2", "l3", Or,
      "Donner la forme algébrique de $(1+i)^2$",
      ["Développe comme une identité remarquable classique"],
      "2i",
      "$(1+i)^2 = 1^2 + 2i + i^2 = 1 + 2i - 1 = 2i$.")
  ]

  const MockExercises: map<string, seq<Exercise>> := map[
    "l_6_1" := ExercisesL6_1,
    "l_5_1" := ExercisesL5_1,
    "l_4_1" := ExercisesL4_1,
    "l1" := ExercisesL1,
    "l_1_1" := ExercisesL1_1,
    "l3" := ExercisesL3
  ]
  /** Every exercise of the tables, lesson by lesson in the order the source
      lists them. */
  const AllExercises: seq<Exercise> :=
    ExercisesL6_1 + ExercisesL5_1 + ExercisesL4_1 + ExercisesL1 + ExercisesL1_1 + ExercisesL3

  /** `MOCK_LESSONS.find(l => l.id === id)`. */
  function FindLesson(id: string): (r: Option<Lesson>)
    ensures r.Some? ==> r.value in MockLessons && r.value.id == id
    ensures r.None? <==> forall i :: 0 <= i < |MockLessons| ==> MockLessons[i].id != id
  {
    Find(MockLessons, (l: Lesson) => l.id == id)
  }

  /** `MOCK_EXERCISES[id || ''] || []`: a missing route parameter reads as
      the empty key, and a key without exercises gives the empty list. */
  function ExercisesFor(id: Option<string>): (r: seq<Exercise>)
    ensures id.Some? && id.value in MockExercises ==> r == MockExercises[id.value]
    ensures (id.None? || id.value !in MockExercises) ==> r == []
  {
    var key := id.GetOr("");
    if key in MockExercises then MockExercises[key] else []
  }

  // ---------------------------------------------------------------------
  // Invariants of the tables

  /** `LEVELS` lists the seven levels once each, from 6eme to Terminale. */
  lemma LevelsInCurriculumOrder()
    ensures |Levels| == 7
    ensures forall i :: 0 <= i < |Levels| ==> LevelRank(Levels[i].value) == i
    ensures forall l: Level :: Levels[LevelRank(l)].value == l
  {
  }

  /** No two lessons share an id. */
  lemma LessonIdsDistinct()
    ensures forall i, j :: 0 <= i < j < |MockLessons| ==> MockLessons[i].id != MockLessons[j].id
  {
  }

  /** Every exercise of the tables has its own id. */
  lemma ExerciseIdsDistinct()
    ensures forall i, j :: 0 <= i < j < |AllExercises| ==> AllExercises[i].id != AllExercises[j].id
  {
  }

  /** `AllExercises` holds exactly the exercises of the map. */
  lemma AllExercisesCoverTable()
    ensures forall k, i :: k in MockExercises && 0 <= i < |MockExercises[k]| ==> MockExercises[k][i] in AllExercises
  {
  }

  /** Every exercise is filed under the id of its own lesson. */
  lemma ExercisesFiledUnderTheirLesson()
    ensures forall k, i :: k in MockExercises && 0 <= i < |MockExercises[k]| ==> MockExercises[k][i].lessonId == k
  {
  }

  /** Every key of the exercise table is the id of a lesson. */
  lemma ExerciseKeysAreLessons()
    ensures forall k :: k in MockExercises ==> FindLesson(k).Some?
  {
    forall k | k in MockExercises ensures FindLesson(k).Some? {
      var i :=
        if k == "l_6_1" then 0 else if k == "l_5_1" then 2 else if k == "l_4_1" then 4
        else if k == "l1" then 6 else if k == "l_1_1" then 10 else 12;
      assert MockLessons[i].id == k;
    }
  }

  /** Each lesson is found by its own id. */
  lemma FindLessonById(i: nat)
    requires i < |MockLessons|
    ensures FindLesson(MockLessons[i].id) == Some(MockLessons[i])
  {
    var id := MockLessons[i].id;
    var r := FindLesson(id);
    assert r.Some?;
    var j :| 0 <= j < |MockLessons| && MockLessons[j] == r.value && MockLessons[j].id == id;
    LessonIdsDistinct();
    assert j == i;
  }
}
