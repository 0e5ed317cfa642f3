/** One learner's progress record (`User` in src/data/user_manager.py). Timestamps are opaque
    strings supplied by the caller; speeds and accuracies are exact rationals. */
module Users {
  import opened Wrappers
  import opened Sequences

  /** The age `User` assumes when none is given. */
  const DefaultAge: int := 10

  /** The lessons between two level-ups. */
  const LessonsPerLevel: int := 5

  /** The outcome of one attempt at a lesson. */
  datatype LessonResult = LessonResult(completedDate: string, score: int, accuracy: real, speed: real)

  datatype User = User(
    name: string,
    age: int,
    createdDate: string,
    lastLogin: string,
    currentLevel: int,
    currentLesson: int,
    totalPoints: int,
    lessonsCompleted: int,
    typingSpeed: real,
    accuracy: real,
    totalWordsTyped: int,
    totalErrors: int,
    starsEarned: int,
    badges: seq<string>,
    gamesUnlocked: seq<string>,
    lessonResults: map<string, LessonResult>)

  /** The state of a learner who has done nothing yet. */
  ghost predicate IsFresh(u: User) {
    && u.currentLevel == 1 && u.currentLesson == 1
    && u.totalPoints == 0 && u.lessonsCompleted == 0
    && u.typingSpeed == 0.0 && u.accuracy == 0.0
    && u.totalWordsTyped == 0 && u.totalErrors == 0 && u.starsEarned == 0
    && u.badges == [] && u.gamesUnlocked == [] && u.lessonResults == map[]
  }

  /** The constructor: level 1, lesson 1, every counter and average zero, nothing unlocked,
      both timestamps set to `now`. */
  function NewUser(name: string, age: int := DefaultAge, now: string): (u: User)
    ensures u.name == name && u.age == age
    ensures u.createdDate == now && u.lastLogin == now
    ensures IsFresh(u)
  {
    User(name, age, now, now, 1, 1, 0, 0, 0.0, 0.0, 0, 0, 0, [], [], map[])
  }

  /** Counters never go below zero, and the name lists hold no repeats: what every operation keeps. */
  ghost predicate Valid(u: User) {
    && u.currentLevel >= 1 && u.currentLesson >= 1
    && u.totalPoints >= 0 && u.lessonsCompleted >= 0 && u.starsEarned >= 0
    && u.totalWordsTyped >= 0 && u.totalErrors >= 0
    && 0.0 <= u.accuracy <= 100.0 && u.typingSpeed >= 0.0
    && NoDuplicates(u.badges) && NoDuplicates(u.gamesUnlocked)
  }

  /** `update_login`. */
  function UpdateLogin(u: User, now: string): (r: User)
    ensures r.lastLogin == now
    ensures r.(lastLogin := u.lastLogin) == u
  {
    u.(lastLogin := now)
  }

  /** The 2-point moving average `(old + sample) / 2` used for speed and accuracy. */
  function MovingAverage(previous: real, sample: real): (r: real)
    ensures previous <= sample ==> previous <= r <= sample
    ensures sample <= previous ==> sample <= r <= previous
    ensures r - previous == (sample - previous) / 2.0
  {
    (previous + sample) / 2.0
  }

  /** `complete_lesson`: stores the result for `lessonId` (replacing an earlier one), counts the
      lesson, adds the score, folds speed and accuracy into their averages, and raises the level
      by one on every fifth completed lesson. */
  function CompleteLesson(u: User, lessonId: string, score: int, accuracy: real, speed: real, now: string): (r: User)
    ensures r.lessonResults.Keys == u.lessonResults.Keys + {lessonId}
    ensures r.lessonResults[lessonId] == LessonResult(now, score, accuracy, speed)
    ensures forall id :: id in u.lessonResults && id != lessonId ==> r.lessonResults[id] == u.lessonResults[id]
    ensures r.lessonsCompleted == u.lessonsCompleted + 1
    ensures r.totalPoints == u.totalPoints + score
    ensures r.lessonsCompleted > 0 ==>
      r.typingSpeed == MovingAverage(u.typingSpeed, speed) && r.accuracy == MovingAverage(u.accuracy, accuracy)
    ensures r.lessonsCompleted <= 0 ==> r.typingSpeed == u.typingSpeed && r.accuracy == u.accuracy
    ensures r.lessonsCompleted % LessonsPerLevel == 0 <==> r.currentLevel == u.currentLevel + 1
    ensures r.lessonsCompleted % LessonsPerLevel != 0 <==> r.currentLevel == u.currentLevel
    ensures r.(lessonResults := u.lessonResults, lessonsCompleted := u.lessonsCompleted,
               totalPoints := u.totalPoints, typingSpeed := u.typingSpeed, accuracy := u.accuracy,
               currentLevel := u.currentLevel) == u
  {
    var completed := u.lessonsCompleted + 1;
    var averaged := completed > 0;
    u.(lessonResults := u.lessonResults[lessonId := LessonResult(now, score, accuracy, speed)],
       lessonsCompleted := completed,
       totalPoints := u.totalPoints + score,
       typingSpeed := if averaged then MovingAverage(u.typingSpeed, speed) else u.typingSpeed,
       accuracy := if averaged then MovingAverage(u.accuracy, accuracy) else u.accuracy,
       currentLevel := if completed % LessonsPerLevel == 0 then u.currentLevel + 1 else u.currentLevel)
  }

  /** `add_stars`. */
  function AddStars(u: User, count: int): (r: User)
    ensures r.starsEarned - u.starsEarned == count
    ensures r.(starsEarned := u.starsEarned) == u
  {
    u.(starsEarned := u.starsEarned + count)
  }

  /** Append `name` unless it is already listed. */
  function AddOnce(names: seq<string>, name: string): (r: seq<string>)
    ensures name in r
    ensures forall x :: x in r <==> x in names || x == name
    ensures name in names ==> r == names
    ensures name !in names ==> r == names + [name]
    ensures NoDuplicates(names) ==> NoDuplicates(r)
  {
    if name in names then names else names + [name]
  }

  /** `unlock_badge`: the badge is listed afterwards, once. */
  function UnlockBadge(u: User, badge: string): (r: User)
    ensures r.badges == AddOnce(u.badges, badge)
    ensures r.(badges := u.badges) == u
  {
    u.(badges := AddOnce(u.badges, badge))
  }

  /** `unlock_game`: the game is listed afterwards, once. */
  function UnlockGame(u: User, game: string): (r: User)
    ensures r.gamesUnlocked == AddOnce(u.gamesUnlocked, game)
    ensures r.(gamesUnlocked := u.gamesUnlocked) == u
  {
    u.(gamesUnlocked := AddOnce(u.gamesUnlocked, game))
  }

  /** Unlocking twice is unlocking once. */
  lemma UnlockIdempotent(u: User, name: string)
    ensures UnlockBadge(UnlockBadge(u, name), name) == UnlockBadge(u, name)
    ensures UnlockGame(UnlockGame(u, name), name) == UnlockGame(u, name)
  {
  }

  /** A fresh learner is valid, and every operation keeps a learner valid when its own inputs are in
      range (a non-negative score or star count, an accuracy between 0 and 100, a non-negative speed). */
  lemma OperationsKeepValid(u: User, lessonId: string, score: int, accuracy: real, speed: real,
                            stars: int, name: string, now: string)
    requires Valid(u)
    ensures Valid(NewUser(name, u.age, now))
    ensures score >= 0 && 0.0 <= accuracy <= 100.0 && speed >= 0.0 ==> Valid(CompleteLesson(u, lessonId, score, accuracy, speed, now))
    ensures stars >= 0 ==> Valid(AddStars(u, stars))
    ensures Valid(UnlockBadge(u, name)) && Valid(UnlockGame(u, name))
    ensures Valid(UpdateLogin(u, now))
  {
  }

  // ---------------------------------------------------------------------------------------------
  // A run of completions

  /** One submitted lesson result: id, score, accuracy, speed and the time it was submitted. */
  datatype Submission = Submission(lessonId: string, score: int, accuracy: real, speed: real, at: string)

  /** `complete_lesson` applied to each submission in turn. */
  function CompleteAll(u: User, subs: seq<Submission>): (r: User)
    ensures r.lessonsCompleted == u.lessonsCompleted + |subs|
    decreases |subs|
  {
    if |subs| == 0 then u
    else
      var s := subs[0];
      CompleteAll(CompleteLesson(u, s.lessonId, s.score, s.accuracy, s.speed, s.at), subs[1..])
  }

  /** The level depends only on how many lessons were completed: from `k` completed lessons,
      `n` more raise the level by the number of multiples of five passed on the way. */
  lemma {:induction false} LevelAfterCompletions(u: User, subs: seq<Submission>)
    ensures CompleteAll(u, subs).currentLevel
         == u.currentLevel + (u.lessonsCompleted + |subs|) / LessonsPerLevel - u.lessonsCompleted / LessonsPerLevel
    decreases |subs|
  {
    if |subs| > 0 {
      var s := subs[0];
      var v := CompleteLesson(u, s.lessonId, s.score, s.accuracy, s.speed, s.at);
      LevelAfterCompletions(v, subs[1..]);
      var k := u.lessonsCompleted;
      assert (k + 1) / 5 == k / 5 + (if (k + 1) % 5 == 0 then 1 else 0);
    }
  }

  /** A new learner is still at level 1 after four lessons and reaches level 2 with the fifth. */
  lemma FifthLessonLevelsUp(name: string, age: int, now: string, subs: seq<Submission>)
    requires |subs| == 5
    ensures CompleteAll(NewUser(name, age, now), subs[..4]).currentLevel == 1
    ensures CompleteAll(NewUser(name, age, now), subs).currentLevel == 2
  {
    LevelAfterCompletions(NewUser(name, age, now), subs[..4]);
    LevelAfterCompletions(NewUser(name, age, now), subs);
  }

  /** The first result of a new learner is averaged against zero: a speed of 20 gives 10. */
  lemma FirstSpeedIsHalved(name: string, age: int, now: string, lessonId: string, score: int, accuracy: real)
    ensures CompleteLesson(NewUser(name, age, now), lessonId, score, accuracy, 20.0, now).typingSpeed == 10.0
    ensures CompleteLesson(NewUser(name, age, now), lessonId, score, accuracy, 20.0, now).accuracy == accuracy / 2.0
  {
  }

  /** The points total is the sum of all submitted scores. */
  lemma {:induction false} PointsAfterCompletions(u: User, subs: seq<Submission>)
    ensures CompleteAll(u, subs).totalPoints == u.totalPoints + SumScores(subs)
    decreases |subs|
  {
    if |subs| > 0 {
      var s := subs[0];
      PointsAfterCompletions(CompleteLesson(u, s.lessonId, s.score, s.accuracy, s.speed, s.at), subs[1..]);
    }
  }

  function SumScores(subs: seq<Submission>): int {
    if |subs| == 0 then 0 else subs[0].score + SumScores(subs[1..])
  }

  // ---------------------------------------------------------------------------------------------
  // Dictionary form

  /** The dictionary form: each key present (`Some`) or absent (`None`). */
  datatype UserRecord = UserRecord(
    name: Option<string>,
    age: Option<int>,
    createdDate: Option<string>,
    lastLogin: Option<string>,
    currentLevel: Option<int>,
    currentLesson: Option<int>,
    totalPoints: Option<int>,
    lessonsCompleted: Option<int>,
    typingSpeed: Option<real>,
    accuracy: Option<real>,
    totalWordsTyped: Option<int>,
    totalErrors: Option<int>,
    starsEarned: Option<int>,
    badges: Option<seq<string>>,
    gamesUnlocked: Option<seq<string>>,
    lessonResults: Option<map<string, LessonResult>>)

  /** `to_dict`: every key is written. */
  function ToRecord(u: User): (d: UserRecord)
    ensures d.name.Some? && d.age.Some? && d.createdDate.Some? && d.lastLogin.Some?
    ensures d.currentLevel.Some? && d.currentLesson.Some? && d.totalPoints.Some? && d.lessonsCompleted.Some?
    ensures d.typingSpeed.Some? && d.accuracy.Some? && d.totalWordsTyped.Some? && d.totalErrors.Some?
    ensures d.starsEarned.Some? && d.badges.Some? && d.gamesUnlocked.Some? && d.lessonResults.Some?
  {
    UserRecord(Some(u.name), Some(u.age), Some(u.createdDate), Some(u.lastLogin),
               Some(u.currentLevel), Some(u.currentLesson), Some(u.totalPoints), Some(u.lessonsCompleted),
               Some(u.typingSpeed), Some(u.accuracy), Some(u.totalWordsTyped), Some(u.totalErrors),
               Some(u.starsEarned), Some(u.badges), Some(u.gamesUnlocked), Some(u.lessonResults))
  }

  /** `from_dict`: `None` stands for the KeyError of a missing name or age; every other key falls
      back to the value a new learner has, the timestamps to `now`. */
  function FromRecord(d: UserRecord, now: string): (r: Option<User>)
    ensures r.Some? <==> d.name.Some? && d.age.Some?
    ensures r.Some? ==> r.value.name == d.name.value && r.value.age == d.age.value
    ensures r.Some? ==> r.value.createdDate == d.createdDate.GetOr(now) && r.value.lastLogin == d.lastLogin.GetOr(now)
    ensures r.Some? ==> r.value.currentLevel == d.currentLevel.GetOr(1) && r.value.currentLesson == d.currentLesson.GetOr(1)
    ensures r.Some? ==> r.value.totalPoints == d.totalPoints.GetOr(0) && r.value.lessonsCompleted == d.lessonsCompleted.GetOr(0)
    ensures r.Some? ==> r.value.typingSpeed == d.typingSpeed.GetOr(0.0) && r.value.accuracy == d.accuracy.GetOr(0.0)
    ensures r.Some? ==> r.value.totalWordsTyped == d.totalWordsTyped.GetOr(0) && r.value.totalErrors == d.totalErrors.GetOr(0)
    ensures r.Some? ==> r.value.starsEarned == d.starsEarned.GetOr(0)
    ensures r.Some? ==> r.value.badges == d.badges.GetOr([]) && r.value.gamesUnlocked == d.gamesUnlocked.GetOr([])
    ensures r.Some? ==> r.value.lessonResults == d.lessonResults.GetOr(map[])
  {
    if d.name.None? || d.age.None? then None
    else
      var u := NewUser(d.name.value, d.age.value, now);
      Some(u.(createdDate := d.createdDate.GetOr(u.createdDate),
              lastLogin := d.lastLogin.GetOr(u.lastLogin),
              currentLevel := d.currentLevel.GetOr(1),
              currentLesson := d.currentLesson.GetOr(1),
              totalPoints := d.totalPoints.GetOr(0),
              lessonsCompleted := d.lessonsCompleted.GetOr(0),
              typingSpeed := d.typingSpeed.GetOr(0.0),
              accuracy := d.accuracy.GetOr(0.0),
              totalWordsTyped := d.totalWordsTyped.GetOr(0),
              totalErrors := d.totalErrors.GetOr(0),
              starsEarned := d.starsEarned.GetOr(0),
              badges := d.badges.GetOr([]),
              gamesUnlocked := d.gamesUnlocked.GetOr([]),
              lessonResults := d.lessonResults.GetOr(map[])))
  }

  /** Writing a learner to its dictionary form and reading it back reproduces every field,
      whatever the clock says at reading time. */
  lemma RecordRoundTrip(u: User, now: string)
    ensures FromRecord(ToRecord(u), now) == Some(u)
  {
  }

  /** A dictionary holding only name and age reads back as a new learner created at `now`. */
  lemma MinimalRecordIsNewUser(name: string, age: int, now: string)
    ensures FromRecord(UserRecord(Some(name), Some(age), None, None, None, None, None, None,
                                  None, None, None, None, None, None, None, None), now)
         == Some(NewUser(name, age, now))
  {
  }
}
