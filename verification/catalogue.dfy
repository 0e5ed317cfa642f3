/** The lesson catalogue (`LessonManager` in src/data/lesson_manager.py) as a pure state transformer.
    The Python dictionary from id to lesson keeps insertion order, so it is a sequence with unique ids. */
module Catalogue {
  import opened Wrappers
  import opened Sequences
  import opened Numerals
  import opened Lessons

  type LessonList = seq<Lesson>

  /** The dictionary invariant: no two lessons share an id. */
  ghost predicate UniqueIds(cat: LessonList) {
    forall i, j :: 0 <= i < j < |cat| ==> cat[i].id != cat[j].id
  }

  ghost function Ids(cat: LessonList): set<string> {
    set l | l in cat :: l.id
  }

  /** Position of the lesson with the given id, if any. */
  function IndexOfId(cat: LessonList, id: string): (r: Option<nat>)
    ensures r.Some? ==> r.value < |cat| && cat[r.value].id == id
    ensures r.None? <==> id !in Ids(cat)
  {
    if |cat| == 0 then None
    else if cat[0].id == id then Some(0)
    else match IndexOfId(cat[1..], id)
      case None => None
      case Some(i) => Some(i + 1)
  }

  /** `get_lesson`: the lesson stored under `id`, if any. */
  function GetLesson(cat: LessonList, id: string): (r: Option<Lesson>)
    ensures r.Some? ==> r.value in cat && r.value.id == id
    ensures r.None? <==> id !in Ids(cat)
  {
    match IndexOfId(cat, id)
    case None => None
    case Some(i) => Some(cat[i])
  }

  /** With unique ids, a lesson of the catalogue is what its id retrieves. */
  lemma GetLessonOfMember(cat: LessonList, l: Lesson)
    requires UniqueIds(cat)
    requires l in cat
    ensures GetLesson(cat, l.id) == Some(l)
  {
    var r := GetLesson(cat, l.id);
    var i :| 0 <= i < |cat| && cat[i] == l;
    var j :| 0 <= j < |cat| && cat[j] == r.value;
    assert i == j;
  }

  /** `self.lessons[l.lesson_id] = l`: an existing id keeps its place and gets the new lesson,
      a new id goes to the end. */
  function Put(cat: LessonList, l: Lesson): (r: LessonList)
    requires UniqueIds(cat)
    ensures UniqueIds(r)
    ensures l.id in Ids(cat) ==> |r| == |cat|
    ensures l.id !in Ids(cat) ==> r == cat + [l]
    ensures forall i :: 0 <= i < |cat| && cat[i].id != l.id ==> r[i] == cat[i]
    ensures Ids(r) == Ids(cat) + {l.id}
    ensures GetLesson(r, l.id) == Some(l)
    ensures forall id :: id != l.id ==> GetLesson(r, id) == GetLesson(cat, id)
  {
    match IndexOfId(cat, l.id)
    case None =>
      var r := cat + [l];
      assert Ids(r) == Ids(cat) + {l.id};
      GetLessonOfMember(r, l);
      forall id | id != l.id ensures GetLesson(r, id) == GetLesson(cat, id) {
        if id in Ids(cat) {
          var m := GetLesson(cat, id).value;
          GetLessonOfMember(cat, m);
          GetLessonOfMember(r, m);
        }
      }
      r
    case Some(k) =>
      var r := cat[k := l];
      assert Ids(r) == Ids(cat) + {l.id} by {
        forall id | id in Ids(cat) ensures id in Ids(r) {
          var i :| 0 <= i < |cat| && cat[i].id == id;
          assert r[i].id == id;
        }
      }
      GetLessonOfMember(r, l);
      forall id | id != l.id ensures GetLesson(r, id) == GetLesson(cat, id) {
        if id in Ids(cat) {
          var m := GetLesson(cat, id).value;
          GetLessonOfMember(cat, m);
          var i :| 0 <= i < |cat| && cat[i] == m;
          assert r[i] == m;
          GetLessonOfMember(r, m);
        } else {
          assert id !in Ids(r);
        }
      }
      r
  }

  /** The condition of `get_lessons_by_level`. */
  function AtLevel(level: int): (p: Lesson -> bool)
    ensures forall l :: p(l) <==> l.level == level
  {
    (l: Lesson) => l.level == level
  }

  /** The condition of `get_lessons_by_type`. */
  function OfType(lessonType: string): (p: Lesson -> bool)
    ensures forall l :: p(l) <==> l.lessonType == lessonType
  {
    (l: Lesson) => l.lessonType == lessonType
  }

  /** `get_lessons_by_level`: exactly the lessons at `level`, in catalogue order. */
  function LessonsByLevel(cat: LessonList, level: int): (r: seq<Lesson>)
    ensures forall l :: l in r <==> l in cat && l.level == level
    ensures SubsequenceOf(r, cat)
    ensures |r| == |set i | 0 <= i < |cat| && cat[i].level == level|
  {
    var r := Filter(cat, AtLevel(level));
    FilterLength(cat, AtLevel(level));
    assert IndicesWhere(cat, AtLevel(level)) == set i | 0 <= i < |cat| && cat[i].level == level;
    r
  }

  /** `get_lessons_by_type`: exactly the lessons of `lessonType`, in catalogue order. */
  function LessonsByType(cat: LessonList, lessonType: string): (r: seq<Lesson>)
    ensures forall l :: l in r <==> l in cat && l.lessonType == lessonType
    ensures SubsequenceOf(r, cat)
    ensures |r| == |set i | 0 <= i < |cat| && cat[i].lessonType == lessonType|
  {
    var r := Filter(cat, OfType(lessonType));
    FilterLength(cat, OfType(lessonType));
    assert IndicesWhere(cat, OfType(lessonType)) == set i | 0 <= i < |cat| && cat[i].lessonType == lessonType;
    r
  }

  /** The figures `get_lesson_progress` reports for a learner's level. */
  datatype LessonProgress = LessonProgress(
    currentLevel: int, lessonsInLevel: nat, nextLevel: int, lessonsInNextLevel: nat)

  /** `get_lesson_progress`: the level, the next level, and how many lessons each holds. */
  function GetLessonProgress(cat: LessonList, userLevel: int): (p: LessonProgress)
    ensures p.currentLevel == userLevel && p.nextLevel == userLevel + 1
    ensures p.lessonsInLevel == |set i | 0 <= i < |cat| && cat[i].level == userLevel|
    ensures p.lessonsInNextLevel == |set i | 0 <= i < |cat| && cat[i].level == userLevel + 1|
  {
    LessonProgress(userLevel, |LessonsByLevel(cat, userLevel)|,
                   userLevel + 1, |LessonsByLevel(cat, userLevel + 1)|)
  }

  // ---------------------------------------------------------------------------------------------
  // Next lesson

  /** An id `int(lesson_id[1:])` can parse: one leading character, then ASCII digits. */
  predicate WellFormedId(id: string) {
    |id| >= 2 && IsNumeral(id[1..])
  }

  /** `int(lesson_id[1:])`. */
  function IdNumber(id: string): nat
    requires WellFormedId(id)
  {
    ParseDigits(id[1..])
  }

  /** A lesson at `level` whose number is past `current`: the first candidate set of `get_next_lesson`. */
  function LaterInLevel(level: int, current: int): (p: Lesson -> bool)
    ensures forall l :: p(l) <==> l.level == level && WellFormedId(l.id) && IdNumber(l.id) > current
  {
    (l: Lesson) => l.level == level && WellFormedId(l.id) && IdNumber(l.id) > current
  }

  /** There is a lesson at `level` whose number is past `current`. */
  ghost predicate HasLaterLesson(cat: LessonList, level: int, current: int) {
    exists l :: l in cat && l.level == level && WellFormedId(l.id) && IdNumber(l.id) > current
  }

  /** There is a lesson at `level`. */
  ghost predicate HasLevel(cat: LessonList, level: int) {
    exists l :: l in cat && l.level == level
  }

  /** The remainder of the scan Python's `min(..., key=...)` performs: `best` holds the first
      smallest number among `s[..k]`, and a later element replaces it only when strictly smaller. */
  function MinScan(s: seq<Lesson>, best: nat, k: nat): (i: nat)
    requires best < k <= |s|
    requires forall j :: 0 <= j < |s| ==> WellFormedId(s[j].id)
    requires forall j :: 0 <= j < k ==> IdNumber(s[best].id) <= IdNumber(s[j].id)
    requires forall j :: 0 <= j < best ==> IdNumber(s[j].id) > IdNumber(s[best].id)
    ensures i < |s|
    ensures forall j :: 0 <= j < |s| ==> IdNumber(s[i].id) <= IdNumber(s[j].id)
    ensures forall j :: 0 <= j < i ==> IdNumber(s[j].id) > IdNumber(s[i].id)
    decreases |s| - k
  {
    if k == |s| then best
    else if IdNumber(s[k].id) < IdNumber(s[best].id) then MinScan(s, k, k + 1)
    else MinScan(s, best, k + 1)
  }

  /** `min(s, key=lambda x: int(x.lesson_id[1:]))`: the first element with the smallest number. */
  function FirstMinimal(s: seq<Lesson>): (i: nat)
    requires |s| > 0
    requires forall j :: 0 <= j < |s| ==> WellFormedId(s[j].id)
    ensures i < |s|
    ensures forall j :: 0 <= j < |s| ==> IdNumber(s[i].id) <= IdNumber(s[j].id)
    ensures forall j :: 0 <= j < i ==> IdNumber(s[j].id) > IdNumber(s[i].id)
  {
    MinScan(s, 0, 1)
  }

  /** What `get_next_lesson` parses: every id at `level`, and the ids at `level + 1` when the
      fallback is reached. */
  ghost predicate NextLessonParses(cat: LessonList, level: int, current: int) {
    && (forall l :: l in cat && l.level == level ==> WellFormedId(l.id))
    && (!HasLaterLesson(cat, level, current) ==>
          forall l :: l in cat && l.level == level + 1 ==> WellFormedId(l.id))
  }

  /** `get_next_lesson`: the smallest-numbered lesson after `current` in the same level, failing that
      the smallest-numbered lesson of the next level, failing that nothing. */
  function NextLesson(cat: LessonList, level: int, current: int): (r: Option<Lesson>)
    requires NextLessonParses(cat, level, current)
    ensures r.Some? ==> r.value in cat && WellFormedId(r.value.id)
    ensures HasLaterLesson(cat, level, current) ==>
      && r.Some? && r.value.level == level && IdNumber(r.value.id) > current
      && forall m :: m in cat && m.level == level && IdNumber(m.id) > current ==>
           IdNumber(r.value.id) <= IdNumber(m.id)
    ensures !HasLaterLesson(cat, level, current) && HasLevel(cat, level + 1) ==>
      && r.Some? && r.value.level == level + 1
      && forall m :: m in cat && m.level == level + 1 ==> IdNumber(r.value.id) <= IdNumber(m.id)
    ensures r.None? <==> !HasLaterLesson(cat, level, current) && !HasLevel(cat, level + 1)
  {
    var later := Filter(cat, LaterInLevel(level, current));
    if |later| > 0 then
      FilterWellFormed(cat, LaterInLevel(level, current));
      var i := FirstMinimal(later);
      MinimumOfFilter(cat, LaterInLevel(level, current), i);
      Some(later[i])
    else
      var next := Filter(cat, AtLevel(level + 1));
      if |next| > 0 then
        FilterWellFormed(cat, AtLevel(level + 1));
        var i := FirstMinimal(next);
        MinimumOfFilter(cat, AtLevel(level + 1), i);
        Some(next[i])
      else
        None
  }

  /** The lessons a test keeps have parseable ids when every kept lesson of the catalogue has one. */
  lemma FilterWellFormed(cat: LessonList, p: Lesson -> bool)
    requires forall l :: l in cat && p(l) ==> WellFormedId(l.id)
    ensures forall j :: 0 <= j < |Filter(cat, p)| ==> WellFormedId(Filter(cat, p)[j].id)
  {
    var r := Filter(cat, p);
    forall j | 0 <= j < |r| ensures WellFormedId(r[j].id) {
      assert r[j] in r;
    }
  }

  /** A minimum of the filtered list is a kept lesson no larger than any kept lesson of the catalogue. */
  lemma MinimumOfFilter(cat: LessonList, p: Lesson -> bool, i: int)
    requires forall l :: l in cat && p(l) ==> WellFormedId(l.id)
    requires forall j :: 0 <= j < |Filter(cat, p)| ==> WellFormedId(Filter(cat, p)[j].id)
    requires 0 <= i < |Filter(cat, p)|
    requires forall j :: 0 <= j < |Filter(cat, p)| ==> IdNumber(Filter(cat, p)[i].id) <= IdNumber(Filter(cat, p)[j].id)
    ensures Filter(cat, p)[i] in cat && p(Filter(cat, p)[i])
    ensures forall m :: m in cat && p(m) ==> IdNumber(Filter(cat, p)[i].id) <= IdNumber(m.id)
  {
    var r := Filter(cat, p);
    assert r[i] in r;
    forall m | m in cat && p(m) ensures IdNumber(r[i].id) <= IdNumber(m.id) {
      assert m in r;
      var j :| 0 <= j < |r| && r[j] == m;
    }
  }

  /** The candidate set `get_next_lesson` takes the minimum of. */
  ghost predicate IsCandidate(cat: LessonList, level: int, current: int, l: Lesson) {
    if HasLaterLesson(cat, level, current) then LaterInLevel(level, current)(l)
    else l.level == level + 1
  }

  /** The test that selects the candidate set. */
  ghost function CandidateTest(cat: LessonList, level: int, current: int): (p: Lesson -> bool)
    ensures forall l :: p(l) <==> IsCandidate(cat, level, current, l)
  {
    if HasLaterLesson(cat, level, current) then LaterInLevel(level, current) else AtLevel(level + 1)
  }

  /** The result of `get_next_lesson`, when there is one, is the first minimum of the candidate list. */
  lemma NextLessonIsFirstMinimal(cat: LessonList, level: int, current: int)
    requires NextLessonParses(cat, level, current)
    ensures var cand := Filter(cat, CandidateTest(cat, level, current));
      && (forall j :: 0 <= j < |cand| ==> WellFormedId(cand[j].id))
      && (|cand| > 0 ==> NextLesson(cat, level, current) == Some(cand[FirstMinimal(cand)]))
  {
    var cand := Filter(cat, CandidateTest(cat, level, current));
    forall j | 0 <= j < |cand| ensures WellFormedId(cand[j].id) {
      assert cand[j] in cand;
    }
  }

  /** In a duplicate-free list, an element chosen as the first minimum of a filter has a strictly
      smaller number than every earlier element that passes the filter. */
  lemma EarlierCandidateLarger(cat: LessonList, p: Lesson -> bool, i: int, k: int)
    requires NoDuplicates(cat)
    requires 0 <= i < k < |cat| && p(cat[i]) && p(cat[k])
    requires forall j :: 0 <= j < |Filter(cat, p)| ==> WellFormedId(Filter(cat, p)[j].id)
    requires |Filter(cat, p)| > 0 && Filter(cat, p)[FirstMinimal(Filter(cat, p))] == cat[k]
    ensures WellFormedId(cat[i].id) && IdNumber(cat[i].id) > IdNumber(cat[k].id)
  {
    var cand := Filter(cat, p);
    FilterNoDuplicates(cat, p);
    FilterKeepsOrder(cat, p, i, k);
    var a, b :| 0 <= a < b < |cand| && cand[a] == cat[i] && cand[b] == cat[k];
    assert b == FirstMinimal(cand);
  }

  /** Ties on the number go to the lesson stored first, as Python's `min` keeps the first minimum:
      every candidate stored before the chosen lesson has a strictly larger number. */
  lemma NextLessonTieBreak(cat: LessonList, level: int, current: int, k: int)
    requires UniqueIds(cat) && NextLessonParses(cat, level, current)
    requires 0 <= k < |cat| && NextLesson(cat, level, current) == Some(cat[k])
    ensures forall i :: 0 <= i < k && IsCandidate(cat, level, current, cat[i]) ==>
      WellFormedId(cat[i].id) && IdNumber(cat[i].id) > IdNumber(cat[k].id)
  {
    var p := CandidateTest(cat, level, current);
    assert NoDuplicates(cat) by {
      forall i, j | 0 <= i < j < |cat| ensures cat[i] != cat[j] {
        assert cat[i].id != cat[j].id;
      }
    }
    NextLessonIsFirstMinimal(cat, level, current);
    assert p(cat[k]) by {
      assert cat[k] in Filter(cat, p);
    }
    forall i | 0 <= i < k && IsCandidate(cat, level, current, cat[i])
      ensures WellFormedId(cat[i].id) && IdNumber(cat[i].id) > IdNumber(cat[k].id)
    {
      EarlierCandidateLarger(cat, p, i, k);
    }
  }

  // ---------------------------------------------------------------------------------------------
  // Custom lessons

  /** The id `create_custom_lesson` assigns: "C" followed by the catalogue size plus one. */
  function CustomLessonId(cat: LessonList): (id: string)
    ensures WellFormedId(id) && id[0] == 'C'
    ensures IdNumber(id) == |cat| + 1
    ensures id[1..] == NatToString(|cat| + 1)
  {
    var digits := NatToString(|cat| + 1);
    var id := "C" + digits;
    assert id[1..] == digits;
    ParsePrinted(|cat| + 1);
    id
  }

  /** The `for text in content: lesson.add_content(text, 1)` loop. */
  function AddAllContent(l: Lesson, texts: seq<string>): (r: Lesson)
    ensures |r.content| == |l.content| + |texts|
    ensures r.content[..|l.content|] == l.content
    ensures forall i :: 0 <= i < |texts| ==> r.content[|l.content| + i] == ContentItem(texts[i], 1)
    ensures r.(content := l.content) == l
    decreases |texts|
  {
    if |texts| == 0 then l
    else AddAllContent(AddContent(l, texts[0], 1), texts[1..])
  }

  /** `create_custom_lesson`: the new lesson, and the catalogue with it stored under its id.
      No freshness check is made: a lesson already stored under that id is replaced. */
  function CreateCustomLesson(cat: LessonList, title: string, level: int, lessonType: string,
                              texts: seq<string>, instructions: string := ""): (out: (LessonList, Lesson))
    requires UniqueIds(cat)
    ensures var (cat', l) := out;
      && l.id == CustomLessonId(cat) && IdNumber(l.id) == |cat| + 1
      && l.title == title && l.level == level && l.lessonType == lessonType
      && |l.content| == |texts|
      && (forall i :: 0 <= i < |texts| ==> l.content[i].text == texts[i] && l.content[i].difficulty == 1)
      && l.instructions == instructions
      && l.targetSpeed == 10.0 && l.targetAccuracy == 85.0
    ensures var (cat', l) := out;
      && UniqueIds(cat')
      && GetLesson(cat', l.id) == Some(l)
      && (forall id :: id != l.id ==> GetLesson(cat', id) == GetLesson(cat, id))
      && |cat'| == (if l.id in Ids(cat) then |cat| else |cat| + 1)
  {
    var l := NewLesson(CustomLessonId(cat), title, level, lessonType);
    var l := AddAllContent(l, texts);
    var l := SetInstructions(l, instructions);
    var l := SetTargets(l, 10.0, 85.0);
    (Put(cat, l), l)
  }

  /** Where the new lesson goes: appended at the end when its id is unused, otherwise in the place
      of the lesson it replaces; every other lesson keeps its position. */
  lemma CustomLessonPlacement(cat: LessonList, title: string, level: int, lessonType: string,
                              texts: seq<string>, instructions: string)
    requires UniqueIds(cat)
    ensures var (cat', l) := CreateCustomLesson(cat, title, level, lessonType, texts, instructions);
      && (l.id !in Ids(cat) ==> cat' == cat + [l])
      && (l.id in Ids(cat) ==> |cat'| == |cat|)
      && (forall i :: 0 <= i < |cat| ==> cat'[i] == (if cat[i].id == l.id then l else cat[i]))
  {
  }

  /** No freshness check: when a lesson already holds the id "C<n+1>", the new custom lesson takes
      its place and the catalogue does not grow. */
  lemma CustomLessonOverwrites(existing: Lesson, title: string, level: int, lessonType: string, texts: seq<string>)
    requires existing.id == "C2"
    ensures var (cat', l) := CreateCustomLesson([existing], title, level, lessonType, texts);
      l.id == "C2" && cat' == [l]
  {
    assert NatToString(2) == "2";
  }

  /** Every id of the form "C" + digits in the catalogue has a number no larger than the catalogue size. */
  ghost predicate CustomIdsBounded(cat: LessonList) {
    forall l :: l in cat && WellFormedId(l.id) && l.id[0] == 'C' ==> IdNumber(l.id) <= |cat|
  }

  /** When custom ids stay within the catalogue size, the id `create_custom_lesson` picks is unused,
      the catalogue grows by one, and the bound still holds afterwards: starting from such a
      catalogue, custom lessons never replace one another. */
  lemma CustomLessonStaysFresh(cat: LessonList, title: string, level: int, lessonType: string,
                               texts: seq<string>, instructions: string)
    requires UniqueIds(cat) && CustomIdsBounded(cat)
    ensures CustomLessonId(cat) !in Ids(cat)
    ensures var (cat', l) := CreateCustomLesson(cat, title, level, lessonType, texts, instructions);
      cat' == cat + [l] && CustomIdsBounded(cat')
  {
  }

  // ---------------------------------------------------------------------------------------------
  // Random content

  /** The condition of the comprehension in `get_random_content`. */
  function NoHarderThan(difficulty: int): (p: ContentItem -> bool)
    ensures forall it :: p(it) <==> it.difficulty <= difficulty
  {
    (it: ContentItem) => it.difficulty <= difficulty
  }

  function Texts(items: seq<ContentItem>): (r: seq<string>)
    ensures |r| == |items|
    ensures forall i :: 0 <= i < |items| ==> r[i] == items[i].text
  {
    if |items| == 0 then [] else [items[0].text] + Texts(items[1..])
  }

  /** `get_random_content`: `choice` is the index `random.choice` draws among the lessons of the type.
      The texts of that lesson no harder than `difficulty`, in order; all its texts when none are. */
  function RandomContent(cat: LessonList, lessonType: string, difficulty: int := 1, choice: nat): (r: seq<string>)
    requires var n := |LessonsByType(cat, lessonType)|; n == 0 || choice < n
    ensures (forall l :: l in cat ==> l.lessonType != lessonType) ==> r == []
    ensures (exists l :: l in cat && l.lessonType == lessonType) ==>
      var chosen := LessonsByType(cat, lessonType)[choice];
      var easy := Filter(chosen.content, NoHarderThan(difficulty));
      && chosen in cat && chosen.lessonType == lessonType
      && ((exists it :: it in chosen.content && it.difficulty <= difficulty) ==>
            |r| == |set i | 0 <= i < |chosen.content| && chosen.content[i].difficulty <= difficulty|
            && r == Texts(easy))
      && ((forall it :: it in chosen.content ==> it.difficulty > difficulty) ==> r == Texts(chosen.content))
  {
    var available := LessonsByType(cat, lessonType);
    if |available| == 0 then []
    else
      var chosen := available[choice];
      assert chosen in available;
      var easy := Filter(chosen.content, NoHarderThan(difficulty));
      FilterLength(chosen.content, NoHarderThan(difficulty));
      assert IndicesWhere(chosen.content, NoHarderThan(difficulty))
          == set i | 0 <= i < |chosen.content| && chosen.content[i].difficulty <= difficulty;
      if |easy| > 0 then Texts(easy) else Texts(chosen.content)
  }

  /** Whatever `get_random_content` returns comes from one lesson of the requested type. */
  lemma RandomContentFromOneLesson(cat: LessonList, lessonType: string, difficulty: int, choice: nat)
    requires var n := |LessonsByType(cat, lessonType)|; n == 0 || choice < n
    ensures var r := RandomContent(cat, lessonType, difficulty, choice);
      r == [] || exists l :: l in cat && l.lessonType == lessonType && TextsOf(r, l)
  {
    var r := RandomContent(cat, lessonType, difficulty, choice);
    var available := LessonsByType(cat, lessonType);
    if |available| > 0 {
      var chosen := available[choice];
      assert chosen in available;
      var easy := Filter(chosen.content, NoHarderThan(difficulty));
      forall t | t in r ensures exists it :: it in chosen.content && it.text == t {
        var i :| 0 <= i < |r| && r[i] == t;
        if |easy| > 0 {
          assert easy[i] in easy;
        } else {
          assert chosen.content[i] in chosen.content;
        }
      }
      assert TextsOf(r, chosen);
    }
  }

  /** Every string of `r` is the text of some item of `l`. */
  ghost predicate TextsOf(r: seq<string>, l: Lesson) {
    forall t :: t in r ==> exists it :: it in l.content && it.text == t
  }

  // ---------------------------------------------------------------------------------------------
  // Dictionary form of the whole catalogue

  /** `save_lessons` without the file: every lesson's dictionary, in catalogue order. */
  function SaveLessons(cat: LessonList): (records: seq<LessonRecord>)
    ensures |records| == |cat|
    ensures forall i :: 0 <= i < |cat| ==> FromRecord(records[i]) == Some(cat[i])
  {
    seq(|cat|, i requires 0 <= i < |cat| => ToRecord(cat[i]))
  }

  /** `load_lessons` without the file: each dictionary read in turn and stored under its lesson's
      id. A dictionary missing a required key raises, which ends the loop and keeps what was loaded. */
  function LoadLessons(cat: LessonList, records: seq<LessonRecord>): (r: LessonList)
    requires UniqueIds(cat)
    ensures UniqueIds(r)
    ensures Ids(cat) <= Ids(r)
    ensures (forall d :: d in records ==> HasRequiredKeys(d)) ==>
      Ids(r) == Ids(cat) + set d | d in records :: d.lessonId.value
    ensures |records| > 0 && !HasRequiredKeys(records[0]) ==> r == cat
    decreases |records|
  {
    if |records| == 0 then cat
    else match FromRecord(records[0])
      case None => cat
      case Some(l) =>
        var r := LoadLessons(Put(cat, l), records[1..]);
        assert forall d :: d in records ==> d == records[0] || d in records[1..];
        r
  }

  /** `k` is the first record without all the required keys. */
  ghost predicate StopsAt(records: seq<LessonRecord>, k: int) {
    && 0 <= k < |records| && !HasRequiredKeys(records[k])
    && forall j :: 0 <= j < k ==> HasRequiredKeys(records[j])
  }

  /** The first record missing a required key ends the load: the result is what loading the records
      before it gives, so exactly their ids are added and nothing from that record on is read. */
  lemma {:induction false} LoadStopsAtFirstMissing(cat: LessonList, records: seq<LessonRecord>, k: int)
    requires UniqueIds(cat) && StopsAt(records, k)
    ensures LoadLessons(cat, records) == LoadLessons(cat, records[..k])
    ensures Ids(LoadLessons(cat, records)) == Ids(cat) + set j | 0 <= j < k :: records[j].lessonId.value
    decreases k
  {
    var prefix := records[..k];
    assert forall d :: d in prefix ==> HasRequiredKeys(d);
    assert (set d | d in prefix :: d.lessonId.value) == set j | 0 <= j < k :: records[j].lessonId.value by {
      forall j | 0 <= j < k ensures records[j] in prefix {
        assert prefix[j] == records[j];
      }
    }
    if k > 0 {
      var l := FromRecord(records[0]).value;
      assert prefix[0] == records[0];
      assert prefix[1..] == records[1..][..k - 1];
      LoadStopsAtFirstMissing(Put(cat, l), records[1..], k - 1);
    }
  }

  /** Reading one more complete record stores exactly the lesson that record reads as under its id,
      over whatever the earlier records left there, and keeps the order of everything else. */
  lemma {:induction false} LoadAppend(cat: LessonList, records: seq<LessonRecord>, d: LessonRecord)
    requires UniqueIds(cat)
    requires forall e :: e in records ==> HasRequiredKeys(e)
    requires HasRequiredKeys(d)
    ensures FromRecord(d).Some?
    ensures LoadLessons(cat, records + [d]) == Put(LoadLessons(cat, records), FromRecord(d).value)
    decreases |records|
  {
    if |records| == 0 {
      assert records + [d] == [d];
      assert [d][1..] == [];
    } else {
      assert records[0] in records;
      var l := FromRecord(records[0]).value;
      assert (records + [d])[0] == records[0];
      assert (records + [d])[1..] == records[1..] + [d];
      LoadAppend(Put(cat, l), records[1..], d);
    }
  }

  /** Saving a catalogue and loading the result into an empty one gives the same catalogue,
      lesson for lesson and in the same order. */
  lemma LoadSavedLessons(cat: LessonList)
    requires UniqueIds(cat)
    ensures LoadLessons([], SaveLessons(cat)) == cat
  {
    var records := SaveLessons(cat);
    var k := |cat|;
    assert records[k..] == [];
    while k > 0
      invariant 0 <= k <= |cat|
      invariant LoadLessons(cat[..k], records[k..]) == cat
      decreases k
    {
      k := k - 1;
      LoadSavedStep(cat, k);
    }
    assert cat[..0] == [];
  }

  /** Loading the saved record of lesson `k` after the first `k` lessons gives the first `k + 1`. */
  lemma LoadSavedStep(cat: LessonList, k: int)
    requires UniqueIds(cat) && 0 <= k < |cat|
    ensures LoadLessons(cat[..k], SaveLessons(cat)[k..]) == LoadLessons(cat[..k + 1], SaveLessons(cat)[k + 1..])
  {
    var records := SaveLessons(cat);
    var prefix := cat[..k];
    assert cat[..k + 1] == prefix + [cat[k]];
    assert cat[k].id !in Ids(prefix) by {
      forall l | l in prefix ensures l.id != cat[k].id {
        var i :| 0 <= i < k && prefix[i] == l;
      }
    }
    assert Put(prefix, cat[k]) == cat[..k + 1];
    assert records[k..][0] == records[k];
    assert records[k..][1..] == records[k + 1..];
  }
}
