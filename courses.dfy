/** The course library (pages/Courses.tsx): the category buttons, and the
    lessons that pass the search, category and level filters. */
module Courses {
  import opened Outcomes
  import opened Text
  import opened Types
  import opened Collections
  import Constants

  /** `lessons.map(l => l.category)`. */
  function LessonCategories(lessons: seq<Lesson>): (r: seq<Category>)
    ensures |r| == |lessons|
    ensures forall i :: 0 <= i < |lessons| ==> r[i] == lessons[i].category
  {
    seq(|lessons|, i requires 0 <= i < |lessons| => lessons[i].category)
  }

  /** `Array.from(new Set(lessons.map(l => l.category)))`: each category of
      the lessons once, in the order of first appearance. */
  function Categories(lessons: seq<Lesson>): (r: seq<Category>)
    ensures NoDuplicates(r)
    ensures forall c :: c in r <==> exists i :: 0 <= i < |lessons| && lessons[i].category == c
  {
    Distinct(LessonCategories(lessons))
  }

  /** The lessons' categories, in the library's order. */
  lemma LibraryLessonCategories()
    ensures LessonCategories(Constants.MockLessons) ==
              [Algebre, Geometrie, Algebre, Algebre, Geometrie, Algebre, Algebre,
               Geometrie, Analyse, Geometrie, Analyse, Analyse, Analyse, Analyse]
  {
  }

  /** The distinct categories of the library's category list. */
  lemma LibraryCategoryListDistinct()
    ensures Distinct([Algebre, Geometrie, Algebre, Algebre, Geometrie, Algebre, Algebre,
                      Geometrie, Analyse, Geometrie, Analyse, Analyse, Analyse, Analyse])
            == [Algebre, Geometrie, Analyse]
  {
    var first := [Algebre, Geometrie];
    var more := [Algebre, Algebre, Geometrie, Algebre, Algebre, Geometrie];
    var rest := [Geometrie, Analyse, Analyse, Analyse, Analyse];
    var seen := first + more;
    assert [Algebre, Geometrie, Algebre, Algebre, Geometrie, Algebre, Algebre,
            Geometrie, Analyse, Geometrie, Analyse, Analyse, Analyse, Analyse]
           == seen + [Analyse] + rest;
    assert Distinct(first) == first by {
      assert first[..1] == [Algebre];
    }
    DistinctNothingNew(first, more);
    assert Analyse !in seen;
    DistinctSnoc(seen, Analyse);
    DistinctNothingNew(seen + [Analyse], rest);
  }

  /** The library's categories, in the order the lessons bring them in.
      Probabilités and Statistiques have no lesson and so no button. */
  lemma LibraryCategories()
    ensures Categories(Constants.MockLessons) == [Algebre, Geometrie, Analyse]
  {
    LibraryLessonCategories();
    LibraryCategoryListDistinct();
  }

  /** The three filters of the page. `selected` is the chosen category. */
  datatype Filters = Filters(searchTerm: string, selected: Option<Category>, showAllLevels: bool)

  /** The search matches the title or the category name, ignoring case. */
  predicate MatchesSearch(l: Lesson, term: string) {
    Contains(Lower(l.title), Lower(term)) || Contains(Lower(CategoryName(l.category)), Lower(term))
  }

  /** A lesson passes the search, its category is the chosen one if a
      category is chosen, and its level is the student's unless every level
      is shown. */
  predicate Matches(l: Lesson, f: Filters, userLevel: Level) {
    && MatchesSearch(l, f.searchTerm)
    && (f.selected.Some? ==> l.category == f.selected.value)
    && (!f.showAllLevels ==> l.level == userLevel)
  }

  /** `filteredLessons`. */
  function FilteredLessons(lessons: seq<Lesson>, f: Filters, userLevel: Level): (r: seq<Lesson>)
    ensures IsSubsequence(r, lessons)
    ensures forall i :: 0 <= i < |lessons| ==> (lessons[i] in r <==> Matches(lessons[i], f, userLevel))
  {
    var r := Filter(lessons, (l: Lesson) => Matches(l, f, userLevel));
    FilterIsSubsequence(lessons, (l: Lesson) => Matches(l, f, userLevel));
    SubsequenceMembers(r, lessons);
    r
  }

  /** An empty search, no category and all levels: every lesson, in order. */
  lemma NoFilterShowsAll(lessons: seq<Lesson>, userLevel: Level)
    ensures FilteredLessons(lessons, Filters("", None, true), userLevel) == lessons
  {
    forall i | 0 <= i < |lessons|
      ensures Matches(lessons[i], Filters("", None, true), userLevel)
    {
      assert Lower("") == "";
      ContainsEmpty(Lower(lessons[i].title));
    }
    FilterAll(lessons, (l: Lesson) => Matches(l, Filters("", None, true), userLevel));
  }

  /** Showing every level only adds lessons: anything listed for the
      student's level is still listed. */
  lemma ShowAllWidens(lessons: seq<Lesson>, term: string, selected: Option<Category>, userLevel: Level, l: Lesson)
    requires l in FilteredLessons(lessons, Filters(term, selected, false), userLevel)
    ensures l in FilteredLessons(lessons, Filters(term, selected, true), userLevel)
  {
    SubsequenceMembers(FilteredLessons(lessons, Filters(term, selected, false), userLevel), lessons);
    var i :| 0 <= i < |lessons| && lessons[i] == l;
  }

  /** Choosing a category only removes lessons. */
  lemma CategoryNarrows(lessons: seq<Lesson>, term: string, c: Category, showAll: bool, userLevel: Level, l: Lesson)
    requires l in FilteredLessons(lessons, Filters(term, Some(c), showAll), userLevel)
    ensures l in FilteredLessons(lessons, Filters(term, None, showAll), userLevel)
    ensures l.category == c
  {
    SubsequenceMembers(FilteredLessons(lessons, Filters(term, Some(c), showAll), userLevel), lessons);
    var i :| 0 <= i < |lessons| && lessons[i] == l;
  }

  /** Searching with different capitalisation finds the same lessons. */
  lemma SearchIgnoresCase(lessons: seq<Lesson>, f: Filters, userLevel: Level)
    ensures FilteredLessons(lessons, f.(searchTerm := Lower(f.searchTerm)), userLevel) == FilteredLessons(lessons, f, userLevel)
  {
    var g := f.(searchTerm := Lower(f.searchTerm));
    assert Lower(Lower(f.searchTerm)) == Lower(f.searchTerm);
    FilterSame(lessons, (l: Lesson) => Matches(l, g, userLevel), (l: Lesson) => Matches(l, f, userLevel));
  }

  /** The page's filter state. */
  class CourseBrowser {
    const userLevel: Level
    var searchTerm: string
    var selectedCategory: Option<Category>
    var showAllLevels: bool

    function Current(): Filters
      reads this
    {
      Filters(searchTerm, selectedCategory, showAllLevels)
    }

    /** The lessons on screen. */
    function Visible(): seq<Lesson>
      reads this
    {
      FilteredLessons(Constants.MockLessons, Current(), userLevel)
    }

    /** The "no lesson left at your level" panel, with its button to every
        level. */
    predicate OffersOtherLevels()
      reads this
    {
      !showAllLevels && Visible() == []
    }

    constructor(level: Level)
      ensures userLevel == level
      ensures Current() == Filters("", None, false)
    {
      userLevel := level;
      searchTerm := "";
      selectedCategory := None;
      showAllLevels := false;
    }

    method Search(term: string)
      modifies this
      ensures Current() == old(Current()).(searchTerm := term)
    {
      searchTerm := term;
    }

    /** The level switch in the header. */
    method ToggleAllLevels()
      modifies this
      ensures Current() == old(Current()).(showAllLevels := !old(showAllLevels))
    {
      showAllLevels := !showAllLevels;
    }

    /** "Passer au niveau supérieur", in the panel that `OffersOtherLevels`
        describes. */
    method ShowAllLevels()
      modifies this
      ensures old(OffersOtherLevels()) ==> Current() == old(Current()).(showAllLevels := true)
      ensures !old(OffersOtherLevels()) ==> Current() == old(Current())
    {
      if OffersOtherLevels() {
        showAllLevels := true;
      }
    }

    /** A category button, one per category of the library: the chosen
        category is cleared, another is chosen. */
    method ClickCategory(c: Category)
      modifies this
      ensures c !in Categories(Constants.MockLessons) ==> Current() == old(Current())
      ensures c in Categories(Constants.MockLessons) && old(selectedCategory) == Some(c) ==>
                Current() == old(Current()).(selected := None)
      ensures c in Categories(Constants.MockLessons) && old(selectedCategory) != Some(c) ==>
                Current() == old(Current()).(selected := Some(c))
    {
      if c in Categories(Constants.MockLessons) {
        selectedCategory := if selectedCategory == Some(c) then None else Some(c);
      }
    }

    /** The X button, shown while a category is chosen. */
    method ClearCategory()
      modifies this
      ensures Current() == old(Current()).(selected := None)
    {
      selectedCategory := None;
    }

    /** "Réinitialiser les filtres", shown when nothing matches: the search
        and the category are cleared; the level switch stays. */
    method ResetFilters()
      modifies this
      ensures old(Visible()) == [] ==> Current() == old(Current()).(searchTerm := "", selected := None)
      ensures old(Visible()) != [] ==> Current() == old(Current())
    {
      if Visible() == [] {
        searchTerm := "";
        selectedCategory := None;
      }
    }
  }
}
