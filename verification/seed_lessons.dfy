/** The default catalogue (`create_default_lessons`) and the start-up rule that installs it
    (`LessonManager.__init__`). */
module SeedLessons {
  import opened Wrappers
  import opened Numerals
  import opened Lessons
  import opened Catalogue

  function LetterA(): (l: Lesson)
    ensures l.id == "L1" && l.level == 1 && l.lessonType == Letters && |l.content| == 2
  {
    var l := SetInstructions(NewLesson("L1", "De Letter A", 1, Letters), "Type de letter A zo vaak als je kunt!");
    SetTargets(AddContent(AddContent(l, "A", 1), "a", 1), 5.0, 90.0)
  }

  function LetterE(): (l: Lesson)
    ensures l.id == "L2" && l.level == 1 && l.lessonType == Letters && |l.content| == 2
  {
    var l := SetInstructions(NewLesson("L2", "De Letter E", 1, Letters), "Type de letter E zo vaak als je kunt!");
    SetTargets(AddContent(AddContent(l, "E", 1), "e", 1), 5.0, 90.0)
  }

  function LetterI(): (l: Lesson)
    ensures l.id == "L3" && l.level == 1 && l.lessonType == Letters && |l.content| == 2
  {
    var l := SetInstructions(NewLesson("L3", "De Letter I", 1, Letters), "Type de letter I zo vaak als je kunt!");
    SetTargets(AddContent(AddContent(l, "I", 1), "i", 1), 5.0, 90.0)
  }

  function SimpleWords(): (l: Lesson)
    ensures l.id == "W1" && l.level == 2 && l.lessonType == Words && |l.content| == 5
  {
    var l := SetInstructions(NewLesson("W1", "Eenvoudige Woorden", 2, Words), "Type deze eenvoudige woorden!");
    var l := AddContent(AddContent(AddContent(l, "kat", 1), "hond", 1), "huis", 1);
    SetTargets(AddContent(AddContent(l, "boom", 1), "zon", 1), 10.0, 85.0)
  }

  function AnimalWords(): (l: Lesson)
    ensures l.id == "W2" && l.level == 2 && l.lessonType == Words && |l.content| == 5
  {
    var l := SetInstructions(NewLesson("W2", "Dieren Woorden", 2, Words), "Type de namen van deze dieren!");
    var l := AddContent(AddContent(AddContent(l, "paard", 2), "koe", 1), "kip", 1);
    SetTargets(AddContent(AddContent(l, "varken", 2), "schaap", 2), 12.0, 85.0)
  }

  function ShortSentences(): (l: Lesson)
    ensures l.id == "Z1" && l.level == 3 && l.lessonType == Sentences && |l.content| == 3
  {
    var l := SetInstructions(NewLesson("Z1", "Korte Zinnen", 3, Sentences), "Type deze korte zinnen!");
    var l := AddContent(AddContent(l, "Ik ga naar school.", 2), "De kat is zwart.", 2);
    SetTargets(AddContent(l, "Ik hou van spelen.", 2), 15.0, 80.0)
  }

  function AnimalSentences(): (l: Lesson)
    ensures l.id == "Z2" && l.level == 3 && l.lessonType == Sentences && |l.content| == 3
  {
    var l := SetInstructions(NewLesson("Z2", "Dierenzinnen", 3, Sentences), "Type zinnen over dieren!");
    var l := AddContent(AddContent(l, "De hond rent in de tuin.", 3), "De koe geeft melk.", 2);
    SetTargets(AddContent(l, "De vogel zingt mooi.", 3), 18.0, 80.0)
  }

  /** The seven default lessons in the order they are stored. */
  function SeedCatalogue(): (cat: LessonList)
    ensures |cat| == 7
  {
    [LetterA(), LetterE(), LetterI(), SimpleWords(), AnimalWords(), ShortSentences(), AnimalSentences()]
  }

  /** Which default lesson sits at which position. */
  lemma SeedLayout()
    ensures var cat := SeedCatalogue();
      && cat[0] == LetterA() && cat[1] == LetterE() && cat[2] == LetterI()
      && cat[3] == SimpleWords() && cat[4] == AnimalWords()
      && cat[5] == ShortSentences() && cat[6] == AnimalSentences()
  {
  }

  /** Id, level, type and content size of each default lesson, by position. */
  lemma SeedFields()
    ensures var cat := SeedCatalogue();
      && cat[0].id == "L1" && cat[1].id == "L2" && cat[2].id == "L3"
      && cat[3].id == "W1" && cat[4].id == "W2" && cat[5].id == "Z1" && cat[6].id == "Z2"
      && cat[0].level == 1 && cat[1].level == 1 && cat[2].level == 1
      && cat[3].level == 2 && cat[4].level == 2 && cat[5].level == 3 && cat[6].level == 3
      && cat[0].lessonType == Letters && cat[1].lessonType == Letters && cat[2].lessonType == Letters
      && cat[3].lessonType == Words && cat[4].lessonType == Words
      && cat[5].lessonType == Sentences && cat[6].lessonType == Sentences
      && forall i :: 0 <= i < 7 ==> |cat[i].content| > 0
  {
    SeedLayout();
  }

  /** The numbers `int(lesson_id[1:])` reads from the default ids. */
  lemma SeedIdNumbers()
    ensures var cat := SeedCatalogue();
      && (forall i :: 0 <= i < 7 ==> WellFormedId(cat[i].id))
      && IdNumber(cat[0].id) == 1 && IdNumber(cat[1].id) == 2 && IdNumber(cat[2].id) == 3
      && IdNumber(cat[3].id) == 1 && IdNumber(cat[4].id) == 2
      && IdNumber(cat[5].id) == 1 && IdNumber(cat[6].id) == 2
  {
    var cat := SeedCatalogue();
    SeedFields();
    forall i | 0 <= i < 7 ensures WellFormedId(cat[i].id) {
      assert |cat[i].id| == 2 && IsDigit(cat[i].id[1]);
      assert cat[i].id[1..] == [cat[i].id[1]];
    }
    forall i | 0 <= i < 7 ensures IdNumber(cat[i].id) == DigitValue(cat[i].id[1]) {
      assert cat[i].id[1..][..0] == [];
    }
  }

  /** No two default lessons share an id. */
  lemma SeedUniqueIds()
    ensures UniqueIds(SeedCatalogue())
  {
    var cat := SeedCatalogue();
    SeedFields();
    assert cat[0].id[1] == '1' && cat[1].id[1] == '2' && cat[2].id[1] == '3';
    assert cat[3].id[1] == '1' && cat[4].id[1] == '2' && cat[5].id[1] == '1' && cat[6].id[1] == '2';
    assert cat[0].id[0] == 'L' && cat[1].id[0] == 'L' && cat[2].id[0] == 'L';
    assert cat[3].id[0] == 'W' && cat[4].id[0] == 'W' && cat[5].id[0] == 'Z' && cat[6].id[0] == 'Z';
  }

  /** The default catalogue holds L1–L3 (letters, level 1), W1–W2 (words, level 2) and
      Z1–Z2 (sentences, level 3), and nothing at any other level. */
  lemma SeedShape(l: Lesson)
    requires l in SeedCatalogue()
    ensures l.level == 1 <==> l.lessonType == Letters
    ensures l.level == 2 <==> l.lessonType == Words
    ensures l.level == 3 <==> l.lessonType == Sentences
    ensures l.level == 1 ==> l.id in {"L1", "L2", "L3"}
    ensures l.level == 2 ==> l.id in {"W1", "W2"}
    ensures l.level == 3 ==> l.id in {"Z1", "Z2"}
    ensures 1 <= l.level <= 3
  {
    SeedFields();
  }

  /** The facts about the default catalogue that `get_next_lesson` and `get_random_content` look at:
      levels, types, parsed id numbers and non-empty content, by position. */
  ghost predicate SeedProfile(cat: LessonList) {
    && |cat| == 7
    && (forall i :: 0 <= i < 7 ==> WellFormedId(cat[i].id) && |cat[i].content| > 0)
    && cat[0].level == 1 && cat[1].level == 1 && cat[2].level == 1
    && cat[3].level == 2 && cat[4].level == 2 && cat[5].level == 3 && cat[6].level == 3
    && cat[0].lessonType == Letters && cat[1].lessonType == Letters && cat[2].lessonType == Letters
    && cat[3].lessonType == Words && cat[4].lessonType == Words
    && cat[5].lessonType == Sentences && cat[6].lessonType == Sentences
    && IdNumber(cat[0].id) == 1 && IdNumber(cat[1].id) == 2 && IdNumber(cat[2].id) == 3
    && IdNumber(cat[3].id) == 1 && IdNumber(cat[4].id) == 2
    && IdNumber(cat[5].id) == 1 && IdNumber(cat[6].id) == 2
  }

  lemma SeedHasProfile()
    ensures SeedProfile(SeedCatalogue())
  {
    SeedFields();
    SeedIdNumbers();
  }

  /** After lesson 1 of level 1 comes L2; after lesson 3 of level 1 comes the first lesson of
      level 2, W1; after lesson 2 of the last level there is nothing. */
  lemma SeedNextLessons()
    ensures NextLessonParses(SeedCatalogue(), 1, 1) && NextLesson(SeedCatalogue(), 1, 1) == Some(LetterE())
    ensures NextLessonParses(SeedCatalogue(), 1, 3) && NextLesson(SeedCatalogue(), 1, 3) == Some(SimpleWords())
    ensures NextLessonParses(SeedCatalogue(), 3, 2) && NextLesson(SeedCatalogue(), 3, 2) == None
  {
    SeedHasProfile();
    SeedLayout();
    ProfileNextLessons(SeedCatalogue());
  }

  lemma ProfileNextLessons(cat: LessonList)
    requires SeedProfile(cat)
    ensures NextLessonParses(cat, 1, 1) && NextLesson(cat, 1, 1) == Some(cat[1])
    ensures NextLessonParses(cat, 1, 3) && NextLesson(cat, 1, 3) == Some(cat[3])
    ensures NextLessonParses(cat, 3, 2) && NextLesson(cat, 3, 2) == None
  {
    ProfileNextAfterL1(cat);
    ProfileNextAfterL3(cat);
    ProfileNextAfterZ2(cat);
  }

  /** What a member of a catalogue with the default profile can be. */
  lemma ProfileMember(cat: LessonList, l: Lesson)
    requires SeedProfile(cat) && l in cat
    ensures WellFormedId(l.id) && IdNumber(l.id) >= 1 && |l.content| > 0 && 1 <= l.level <= 3
    ensures l.level == 1 ==> IdNumber(l.id) <= 3 && (IdNumber(l.id) == 2 ==> l == cat[1])
    ensures l.level == 2 ==> IdNumber(l.id) <= 2 && (IdNumber(l.id) == 1 ==> l == cat[3])
    ensures l.level == 3 ==> IdNumber(l.id) <= 2
  {
    var i :| 0 <= i < |cat| && cat[i] == l;
  }

  lemma ProfileParses(cat: LessonList, level: int, current: int)
    requires SeedProfile(cat)
    ensures NextLessonParses(cat, level, current)
  {
    forall l | l in cat ensures WellFormedId(l.id) {
      ProfileMember(cat, l);
    }
  }

  lemma ProfileNextAfterL1(cat: LessonList)
    requires SeedProfile(cat)
    ensures NextLessonParses(cat, 1, 1) && NextLesson(cat, 1, 1) == Some(cat[1])
  {
    ProfileParses(cat, 1, 1);
    assert cat[1] in cat;
    assert HasLaterLesson(cat, 1, 1);
    var r := NextLesson(cat, 1, 1).value;
    ProfileMember(cat, r);
  }

  lemma ProfileNextAfterL3(cat: LessonList)
    requires SeedProfile(cat)
    ensures NextLessonParses(cat, 1, 3) && NextLesson(cat, 1, 3) == Some(cat[3])
  {
    ProfileParses(cat, 1, 3);
    ProfileNoLaterThanL3(cat);
    assert cat[3] in cat;
    assert HasLevel(cat, 2);
    var r := NextLesson(cat, 1, 3).value;
    ProfileMember(cat, r);
  }

  lemma ProfileNoLaterThanL3(cat: LessonList)
    requires SeedProfile(cat)
    ensures !HasLaterLesson(cat, 1, 3)
  {
    forall l | l in cat ensures !(l.level == 1 && WellFormedId(l.id) && IdNumber(l.id) > 3) {
      ProfileMember(cat, l);
    }
  }

  lemma ProfileNextAfterZ2(cat: LessonList)
    requires SeedProfile(cat)
    ensures NextLessonParses(cat, 3, 2) && NextLesson(cat, 3, 2) == None
  {
    ProfileParses(cat, 3, 2);
    forall l | l in cat ensures !(l.level == 3 && WellFormedId(l.id) && IdNumber(l.id) > 2) && l.level != 4 {
      ProfileMember(cat, l);
    }
    assert !HasLaterLesson(cat, 3, 2);
    assert !HasLevel(cat, 4);
  }

  /** In the default catalogue every type offers content, whichever lesson is drawn and whatever
      the difficulty, and the content comes from a lesson of that type. */
  lemma SeedContentNeverEmpty(lessonType: string, difficulty: int, choice: nat)
    requires lessonType in {Letters, Words, Sentences}
    requires choice < |LessonsByType(SeedCatalogue(), lessonType)|
    ensures |RandomContent(SeedCatalogue(), lessonType, difficulty, choice)| > 0
    ensures exists l :: (l in SeedCatalogue() && l.lessonType == lessonType &&
      TextsOf(RandomContent(SeedCatalogue(), lessonType, difficulty, choice), l))
  {
    SeedHasProfile();
    ProfileContentNeverEmpty(SeedCatalogue(), lessonType, difficulty, choice);
  }

  lemma ProfileContentNeverEmpty(cat: LessonList, lessonType: string, difficulty: int, choice: nat)
    requires SeedProfile(cat)
    requires choice < |LessonsByType(cat, lessonType)|
    ensures |RandomContent(cat, lessonType, difficulty, choice)| > 0
    ensures exists l :: (l in cat && l.lessonType == lessonType &&
      TextsOf(RandomContent(cat, lessonType, difficulty, choice), l))
  {
    var chosen := LessonsByType(cat, lessonType)[choice];
    assert chosen in LessonsByType(cat, lessonType);
    ProfileMember(cat, chosen);
    RandomContentFromOneLesson(cat, lessonType, difficulty, choice);
  }

  /** No default id starts with "C", so custom lessons added to the defaults get fresh ids. */
  lemma SeedCustomIdsBounded()
    ensures CustomIdsBounded(SeedCatalogue())
  {
    var cat := SeedCatalogue();
    SeedFields();
    forall l | l in cat ensures l.id[0] != 'C' {
      var i :| 0 <= i < 7 && cat[i] == l;
    }
  }

  /** `LessonManager.__init__`: the loaded lessons, or the default catalogue when loading produced none. */
  function StartupCatalogue(records: seq<LessonRecord>): (cat: LessonList)
    ensures UniqueIds(cat)
    ensures |LoadLessons([], records)| == 0 ==> cat == SeedCatalogue()
    ensures |LoadLessons([], records)| > 0 ==> cat == LoadLessons([], records)
  {
    var loaded := LoadLessons([], records);
    if |loaded| == 0 then SeedCatalogue() else loaded
  }

  /** A saved non-empty catalogue comes back unchanged at start-up; nothing saved gives the defaults. */
  lemma StartupRestoresSaved(cat: LessonList)
    requires UniqueIds(cat)
    ensures StartupCatalogue([]) == SeedCatalogue()
    ensures |cat| > 0 ==> StartupCatalogue(SaveLessons(cat)) == cat
  {
    LoadSavedLessons(cat);
  }
}
