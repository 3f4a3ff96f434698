/** The grade registry of the climbing log: two families of climbing-grade
    scales whose positions are aligned by difficulty, and the lookup that
    re-expresses a recorded grade in the grading system the user has chosen. */
module Types {

  /** The two disciplines, each with its own family of scales. */
  datatype Category = Boulder | Rope

  /** The named grading systems; each belongs to exactly one category. */
  datatype GradeSystem = VScale | Font | YDS | French | UIAA

  /** Number of difficulty steps every scale has (positions 0 to 15). */
  const GradeCount: nat := 16

  function SystemCategory(s: GradeSystem): Category
  {
    match s
    case VScale | Font => Boulder
    case YDS | French | UIAA => Rope
  }

  /** The category tag as the caller passes it: exactly the string "Boulder"
      selects the boulder scales, every other string selects the rope scales. */
  function CategoryOf(fromType: string): Category
  {
    if fromType == "Boulder" then Boulder else Rope
  }

  /** The systems of a category, in the order their scales are searched. */
  function Systems(c: Category): (r: seq<GradeSystem>)
    ensures forall s :: s in r <==> SystemCategory(s) == c
  {
    match c
    case Boulder => [VScale, Font]
    case Rope => [YDS, French, UIAA]
  }

  const VScaleGrades: seq<string> := ["V0", "V1", "V2", "V3", "V4", "V5", "V6", "V7", "V8", "V9", "V10", "V11", "V12", "V13", "V14", "V15"]
  const FontGrades: seq<string> := ["3", "4", "5", "6A", "6B", "6C", "7A", "7A+", "7B", "7B+", "7C", "8A", "8A+", "8B", "8B+", "8C"]
  const YDSGrades: seq<string> := ["5.6", "5.7", "5.8", "5.9", "5.10-", "5.10", "5.10+", "5.11-", "5.11", "5.11+", "5.12-", "5.12", "5.12+", "5.13", "5.14", "5.15"]
  const FrenchGrades: seq<string> := ["4", "5a", "5b", "5c", "6a", "6a+", "6b", "6b+", "6c", "7a", "7a+", "7b", "7c", "8a", "8b", "9a"]
  const UIAAGrades: seq<string> := ["IV", "V-", "V", "V+", "VI-", "VI", "VI+", "VII-", "VII", "VII+", "VIII-", "VIII", "IX", "X", "XI", "XII"]

  /** The difficulty scale of a system, easiest first. */
  function Scale(s: GradeSystem): (r: seq<string>)
    ensures |r| == GradeCount
    ensures forall i :: 0 <= i < |r| ==> r[i] != ""
  {
    match s
    case VScale => VScaleGrades
    case Font => FontGrades
    case YDS => YDSGrades
    case French => FrenchGrades
    case UIAA => UIAAGrades
  }

  /** The grade is a label of some scale of the category. */
  predicate InCategory(g: string, c: Category)
  {
    exists s :: SystemCategory(s) == c && g in Scale(s)
  }

  /** No label occurs twice among all the scales of the category: a label
      names one system and one position. */
  predicate LabelsDistinct(c: Category)
  {
    forall s1, s2, i, j ::
      SystemCategory(s1) == c && SystemCategory(s2) == c &&
      0 <= i < |Scale(s1)| && 0 <= j < |Scale(s2)| && Scale(s1)[i] == Scale(s2)[j]
      ==> s1 == s2 && i == j
  }

  /** Position of the first occurrence of g in s, or -1 when g does not occur
      (the behaviour of an array's indexOf). */
  function IndexOf(s: seq<string>, g: string): (r: int)
    ensures r == -1 <==> g !in s
    ensures r != -1 ==> 0 <= r < |s| && s[r] == g && g !in s[..r]
  {
    if s == [] then -1
    else if s[0] == g then 0
    else
      var k := IndexOf(s[1..], g);
      if k == -1 then -1
      else
        // carries g !in s[1..][..k] from the recursive call over to s[..k + 1]
        assert s[1..][..k] == s[1..k + 1];
        k + 1
  }

  /** The index the search over the scales of `systems` settles on: indexOf in
      each scale in turn, stopping at the first scale that holds g; -1 if none does. */
  function FirstHit(systems: seq<GradeSystem>, g: string): (r: int)
    ensures r == -1 <==> forall s :: s in systems ==> g !in Scale(s)
    ensures r != -1 ==> 0 <= r < GradeCount && exists s :: s in systems && Scale(s)[r] == g
  {
    if systems == [] then -1
    else
      var index := IndexOf(Scale(systems[0]), g);
      if index != -1 then index else FirstHit(systems[1..], g)
  }

  /** The conversion of a recorded grade into the target system. The target
      must belong to the category the tag selects: across categories the code
      throws a TypeError when the grade is found, and returns the grade
      unchanged when it is not; the requires excludes both cases. */
  function Convert(grade: string, fromType: string, toSystem: GradeSystem): (r: string)
    requires SystemCategory(toSystem) == CategoryOf(fromType)
    ensures r == grade || r in Scale(toSystem)
    ensures r in Scale(toSystem) <==> InCategory(grade, CategoryOf(fromType))
  {
    var index := FirstHit(Systems(CategoryOf(fromType)), grade);
    if index == -1 then grade
    else
      var entry := Scale(toSystem)[index];
      if entry != "" then entry else grade
  }

  /** The lookup as the source runs it: a loop over the category's scales that
      breaks at the first scale whose indexOf finds the grade. */
  method ConvertGrade(grade: string, fromType: string, toSystem: GradeSystem) returns (r: string)
    requires SystemCategory(toSystem) == CategoryOf(fromType)
    ensures r == Convert(grade, fromType, toSystem)
  {
    var category := CategoryOf(fromType);
    var maps := Systems(category);
    var index := -1;
    var k := 0;
    while k < |maps|
      invariant 0 <= k <= |maps|
      invariant index == -1
      invariant FirstHit(maps[k..], grade) == FirstHit(maps, grade)
    {
      index := IndexOf(Scale(maps[k]), grade);
      if index != -1 {
        break;
      }
      k := k + 1;
    }
    if index == -1 {
      return grade;
    }
    var entry := Scale(toSystem)[index];
    r := if entry != "" then entry else grade;
  }

  // ---------------------------------------------------------------------
  // Properties of the tables

  /** No two positions of one scale carry the same label. */
  lemma ScaleDistinct(s: GradeSystem)
    ensures forall i, j :: 0 <= i < j < |Scale(s)| ==> Scale(s)[i] != Scale(s)[j]
  {
    match s
    case VScale =>
      assert forall i, j :: 0 <= i < j < GradeCount ==> VScaleGrades[i] != VScaleGrades[j];
    case Font =>
      assert forall i, j :: 0 <= i < j < GradeCount ==> FontGrades[i] != FontGrades[j];
    case YDS =>
      assert forall i, j :: 0 <= i < j < GradeCount ==> YDSGrades[i] != YDSGrades[j];
    case French =>
      assert forall i, j :: 0 <= i < j < GradeCount ==> FrenchGrades[i] != FrenchGrades[j];
    case UIAA =>
      assert forall i, j :: 0 <= i < j < GradeCount ==> UIAAGrades[i] != UIAAGrades[j];
  }

  /** Two different scales of one category share no label. */
  lemma ScalesDisjoint(s1: GradeSystem, s2: GradeSystem)
    requires SystemCategory(s1) == SystemCategory(s2) && s1 != s2
    ensures forall i, j :: 0 <= i < |Scale(s1)| && 0 <= j < |Scale(s2)| ==> Scale(s1)[i] != Scale(s2)[j]
  {
    if SystemCategory(s1) == Boulder {
      BoulderScalesDisjoint();
    } else {
      RopeScalesDisjoint();
    }
  }

  lemma BoulderScalesDisjoint()
    ensures forall i, j :: 0 <= i < GradeCount && 0 <= j < GradeCount ==> VScaleGrades[i] != FontGrades[j]
  {
  }

  lemma RopeScalesDisjoint()
    ensures forall i, j :: 0 <= i < GradeCount && 0 <= j < GradeCount ==> YDSGrades[i] != FrenchGrades[j]
    ensures forall i, j :: 0 <= i < GradeCount && 0 <= j < GradeCount ==> YDSGrades[i] != UIAAGrades[j]
    ensures forall i, j :: 0 <= i < GradeCount && 0 <= j < GradeCount ==> FrenchGrades[i] != UIAAGrades[j]
  {
  }

  /** Every label is unique within its category, so the first-match search
      cannot be misled by a label of another system. */
  lemma LabelsDistinctHolds(c: Category)
    ensures LabelsDistinct(c)
  {
    forall s1, s2 | SystemCategory(s1) == c && SystemCategory(s2) == c
      ensures forall i, j :: 0 <= i < |Scale(s1)| && 0 <= j < |Scale(s2)| && Scale(s1)[i] == Scale(s2)[j] ==> s1 == s2 && i == j
    {
      if s1 == s2 {
        ScaleDistinct(s1);
      } else {
        ScalesDisjoint(s1, s2);
      }
    }
  }

  /** Any index found in one scale is in range for every scale of the category. */
  lemma ScalesAligned(s1: GradeSystem, s2: GradeSystem, g: string)
    requires SystemCategory(s1) == SystemCategory(s2)
    requires g in Scale(s1)
    ensures 0 <= IndexOf(Scale(s1), g) < |Scale(s2)|
  {
  }

  // ---------------------------------------------------------------------
  // Properties of the conversion

  /** The search finds the position of a label that no other position of
      the searched scales carries. */
  lemma {:induction false} FirstHitOfLabel(systems: seq<GradeSystem>, s: GradeSystem, i: int)
    requires s in systems && 0 <= i < |Scale(s)|
    requires forall t :: t in systems ==> SystemCategory(t) == SystemCategory(s)
    requires LabelsDistinct(SystemCategory(s))
    ensures FirstHit(systems, Scale(s)[i]) == i
  {
    var g := Scale(s)[i];
    var index := IndexOf(Scale(systems[0]), g);
    if systems[0] == s {
      assert index == i;
    } else {
      assert index == -1;
      FirstHitOfLabel(systems[1..], s, i);
    }
  }

  /** Index alignment: the label at position i of one system converts to the
      label at position i of any system of the same category. */
  lemma ConvertAligned(fromType: string, s1: GradeSystem, s2: GradeSystem, i: int)
    requires SystemCategory(s1) == CategoryOf(fromType) && SystemCategory(s2) == CategoryOf(fromType)
    requires 0 <= i < GradeCount
    ensures Convert(Scale(s1)[i], fromType, s2) == Scale(s2)[i]
  {
    var c := CategoryOf(fromType);
    LabelsDistinctHolds(c);
    FirstHitOfLabel(Systems(c), s1, i);
    assert FirstHit(Systems(c), Scale(s1)[i]) == i;
  }

  /** A grade the target system already uses is returned as it is. */
  lemma ConvertIdentity(g: string, fromType: string, s: GradeSystem)
    requires SystemCategory(s) == CategoryOf(fromType)
    requires g in Scale(s)
    ensures Convert(g, fromType, s) == g
  {
    var i :| 0 <= i < |Scale(s)| && Scale(s)[i] == g;
    ConvertAligned(fromType, s, s, i);
  }

  /** Converting to another system of the category and back restores the grade. */
  lemma ConvertRoundTrip(g: string, fromType: string, s1: GradeSystem, s2: GradeSystem)
    requires SystemCategory(s1) == CategoryOf(fromType) && SystemCategory(s2) == CategoryOf(fromType)
    requires g in Scale(s1)
    ensures Convert(Convert(g, fromType, s2), fromType, s1) == g
  {
    var i :| 0 <= i < |Scale(s1)| && Scale(s1)[i] == g;
    ConvertAligned(fromType, s1, s2, i);
    ConvertAligned(fromType, s2, s1, i);
  }

  /** A grade that is no label of the category passes through unchanged. */
  lemma ConvertMiss(g: string, fromType: string, s: GradeSystem)
    requires SystemCategory(s) == CategoryOf(fromType)
    requires !InCategory(g, CategoryOf(fromType))
    ensures Convert(g, fromType, s) == g
  {
  }

  /** The fallback to the input after the table lookup is never taken: a
      recognised grade always converts to the target's entry at its position. */
  lemma ConvertNeverFallsBack(g: string, fromType: string, s: GradeSystem)
    requires SystemCategory(s) == CategoryOf(fromType)
    requires InCategory(g, CategoryOf(fromType))
    ensures exists i :: 0 <= i < GradeCount && Convert(g, fromType, s) == Scale(s)[i] &&
                        exists t :: SystemCategory(t) == CategoryOf(fromType) && Scale(t)[i] == g
  {
    var c := CategoryOf(fromType);
    var index := FirstHit(Systems(c), g);
    var t :| t in Systems(c) && Scale(t)[index] == g;
    assert SystemCategory(t) == c;
    assert Convert(g, fromType, s) == Scale(s)[index];
  }

  /** Worked examples from the boulder tables. */
  lemma BoulderExamples()
    ensures Convert("V4", "Boulder", Font) == "6B"
    ensures Convert("6B", "Boulder", VScale) == "V4"
  {
    ConvertAligned("Boulder", VScale, Font, 4);
    ConvertAligned("Boulder", Font, VScale, 4);
  }

  /** An unknown grade is displayed as it was recorded. */
  lemma MissExample()
    ensures Convert("not-a-grade", "Boulder", Font) == "not-a-grade"
  {
    assert forall i :: 0 <= i < GradeCount ==> |VScaleGrades[i]| < 4 && |FontGrades[i]| < 4;
    ConvertMiss("not-a-grade", "Boulder", Font);
  }

  /** Worked examples from the rope tables; tags other than "Boulder" select them. */
  lemma RopeExamples()
    ensures Convert("5.10", "Rope", French) == "6a+"
    ensures Convert("VI", "Rope", YDS) == "5.10"
    ensures Convert("5.10", "Rope", UIAA) == "VI"
    ensures Convert("5.10", "Top Rope", French) == "6a+"
    ensures Convert("VI", "Lead", YDS) == "5.10"
  {
    ConvertAligned("Rope", YDS, French, 5);
    ConvertAligned("Rope", UIAA, YDS, 5);
    ConvertAligned("Rope", YDS, UIAA, 5);
    ConvertAligned("Top Rope", YDS, French, 5);
    ConvertAligned("Lead", UIAA, YDS, 5);
  }
}
