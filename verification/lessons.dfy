/** One lesson of the typing course and its dictionary form (`Lesson` in src/data/lesson_manager.py). */
module Lessons {
  import opened Wrappers

  /** The three lesson kinds the course uses; `lesson_type` itself is an unrestricted string. */
  const Letters: string := "letters"
  const Words: string := "words"
  const Sentences: string := "sentences"

  /** One practice text and how hard it is. */
  datatype ContentItem = ContentItem(text: string, difficulty: int)

  /** Speeds and accuracies are exact rationals here, where the program uses Python numbers. */
  datatype Lesson = Lesson(
    id: string,
    title: string,
    level: int,
    lessonType: string,
    content: seq<ContentItem>,
    instructions: string,
    targetSpeed: real,
    targetAccuracy: real)

  /** A lesson as the constructor makes it: no content, no instructions, zero targets. */
  function NewLesson(id: string, title: string, level: int, lessonType: string): (l: Lesson)
    ensures l.id == id && l.title == title && l.level == level && l.lessonType == lessonType
    ensures l.content == [] && l.instructions == ""
    ensures l.targetSpeed == 0.0 && l.targetAccuracy == 0.0
  {
    Lesson(id, title, level, lessonType, [], "", 0.0, 0.0)
  }

  /** Appends one practice text; everything else about the lesson stays as it was. */
  function AddContent(l: Lesson, text: string, difficulty: int := 1): (r: Lesson)
    ensures |r.content| == |l.content| + 1
    ensures r.content[..|l.content|] == l.content
    ensures r.content[|l.content|] == ContentItem(text, difficulty)
    ensures r.(content := l.content) == l
  {
    l.(content := l.content + [ContentItem(text, difficulty)])
  }

  function SetInstructions(l: Lesson, instructions: string): (r: Lesson)
    ensures r.instructions == instructions
    ensures r.(instructions := l.instructions) == l
  {
    l.(instructions := instructions)
  }

  function SetTargets(l: Lesson, speed: real, accuracy: real): (r: Lesson)
    ensures r.targetSpeed == speed && r.targetAccuracy == accuracy
    ensures r.(targetSpeed := l.targetSpeed, targetAccuracy := l.targetAccuracy) == l
  {
    l.(targetSpeed := speed, targetAccuracy := accuracy)
  }

  /** The dictionary form: each key of the JSON object is present (`Some`) or absent (`None`). */
  datatype LessonRecord = LessonRecord(
    lessonId: Option<string>,
    title: Option<string>,
    level: Option<int>,
    lessonType: Option<string>,
    content: Option<seq<ContentItem>>,
    instructions: Option<string>,
    targetSpeed: Option<real>,
    targetAccuracy: Option<real>)

  /** `to_dict`: every key is written. */
  function ToRecord(l: Lesson): (d: LessonRecord)
    ensures d.lessonId.Some? && d.title.Some? && d.level.Some? && d.lessonType.Some?
    ensures d.content.Some? && d.instructions.Some? && d.targetSpeed.Some? && d.targetAccuracy.Some?
  {
    LessonRecord(Some(l.id), Some(l.title), Some(l.level), Some(l.lessonType),
                 Some(l.content), Some(l.instructions), Some(l.targetSpeed), Some(l.targetAccuracy))
  }

  /** The four keys `from_dict` reads with `data[...]`, which raises when one is absent. */
  predicate HasRequiredKeys(d: LessonRecord) {
    d.lessonId.Some? && d.title.Some? && d.level.Some? && d.lessonType.Some?
  }

  /** `from_dict`: `None` stands for the KeyError of a missing required key; the other keys default. */
  function FromRecord(d: LessonRecord): (r: Option<Lesson>)
    ensures r.Some? <==> HasRequiredKeys(d)
    ensures r.Some? ==> r.value.id == d.lessonId.value && r.value.title == d.title.value
    ensures r.Some? ==> r.value.level == d.level.value && r.value.lessonType == d.lessonType.value
    ensures r.Some? ==> r.value.content == d.content.GetOr([])
    ensures r.Some? ==> r.value.instructions == d.instructions.GetOr("")
    ensures r.Some? ==> r.value.targetSpeed == d.targetSpeed.GetOr(0.0)
    ensures r.Some? ==> r.value.targetAccuracy == d.targetAccuracy.GetOr(0.0)
  {
    if !HasRequiredKeys(d) then None
    else
      var l := NewLesson(d.lessonId.value, d.title.value, d.level.value, d.lessonType.value);
      Some(l.(content := d.content.GetOr([]),
              instructions := d.instructions.GetOr(""),
              targetSpeed := d.targetSpeed.GetOr(0.0),
              targetAccuracy := d.targetAccuracy.GetOr(0.0)))
  }

  /** Writing a lesson to its dictionary form and reading it back reproduces every field. */
  lemma RecordRoundTrip(l: Lesson)
    ensures FromRecord(ToRecord(l)) == Some(l)
  {
  }

  /** A dictionary holding only the required keys reads back as a freshly constructed lesson. */
  lemma MinimalRecordIsNewLesson(id: string, title: string, level: int, lessonType: string)
    ensures FromRecord(LessonRecord(Some(id), Some(title), Some(level), Some(lessonType), None, None, None, None))
         == Some(NewLesson(id, title, level, lessonType))
  {
  }

  /** Reading a dictionary, writing it back and reading again changes nothing: the defaults are stable. */
  lemma ReadWriteReadStable(d: LessonRecord)
    requires HasRequiredKeys(d)
    ensures FromRecord(ToRecord(FromRecord(d).value)) == FromRecord(d)
  {
  }
}
