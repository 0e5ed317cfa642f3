# Typing course core in Dafny

This project models the data core of a typing course for children. The core has three parts:

- **Lesson catalogue** (`LessonManager`): an insertion-ordered map from lesson id to `Lesson`.
  It offers filters by level and by type, the next-lesson progression rule, the custom-lesson
  factory, difficulty-filtered content sampling, and the seven-lesson default catalogue.
- **Learner progress** (`User`, `UserManager`): a learner record with counters, two rolling
  averages, badge and game lists, and per-lesson results. It lives in a name-keyed store with
  create, get and delete operations.
- **Dotted-key settings** (`Config.get` and `Config.set`): walking and writing a nested
  dictionary along a `.`-separated key.

Every operation is a pure function on immutable values. A mutation in the program becomes a
function that returns the new state. The dictionary forms written to JSON are typed records in
which every key is an `Option`, so "key present" and "key absent" can both be stated.

Modules:

| module | file | what it holds |
|---|---|---|
| `Wrappers` | wrappers.dfy | `Option` and `Result` |
| `Sequences` | sequences.dfy | order-preserving `Filter` (the list comprehensions) and facts about it |
| `Numerals` | numerals.dfy | decimal digits: `str(n)` and `int(s)` on digit strings |
| `Lessons` | lessons.dfy | `Lesson`, its setters and its dictionary form |
| `Catalogue` | catalogue.dfy | `LessonManager` over a sequence of lessons with unique ids |
| `SeedLessons` | seed_lessons.dfy | `create_default_lessons` and start-up |
| `Users` | users.dfy | `User`, its progress operations and its dictionary form |
| `UserStore` | user_store.dfy | `UserManager` over a map from name to user |
| `DottedKeys` | dotted_keys.dfy | `str.split('.')` and its inverse `'.'.join` |
| `Settings` | settings.dfy | the nested configuration value, `get` and `set` |

Modelling choices:

- **Catalogue order.** The catalogue is a `LessonList`, a `seq<Lesson>` with unique ids. A Python dict keeps
  insertion order, and re-assigning an existing key keeps its position; `Catalogue.Put` does the
  same.
- **Parsing lesson ids.** `get_next_lesson` orders lessons by `int(lesson_id[1:])`. The model
  parses only ids of at least two characters whose tail is ASCII digits. Its precondition
  `NextLessonParses` asks for exactly the lessons that Python evaluates the parse on. The
  short-circuit `and` means only lessons at the current level are parsed in the first filter. The
  second `min` parses only lessons at the next level, and only when the first list is empty.
- **Numbers.** Speeds, accuracies and targets are `real`, which makes the moving average exact.
  Integers are unbounded, as in Python. `lessons_completed % 5` has a positive divisor, so
  Dafny's `%` agrees with Python's.
- **Injected inputs.** The clock (`datetime.now().isoformat()`) is a `now: string` parameter.
  `random.choice` is a `choice` index into the candidate list.
- **Swallowed load errors.** A record missing one of the required keys raises `KeyError`.
  `load_lessons` and `load_users` catch it, so the loop stops and whatever was already loaded
  stays. `LoadLessons` and `LoadUsers` stop at that record.
- **`Config.set` failures.** `set` raises `TypeError` when an existing intermediate value on the
  path is not a dictionary, and nothing has been written by then. `Settings.Set` returns a
  `Failure` in that case. `get` catches `KeyError` and `TypeError` and returns the default;
  `Settings.Get` returns the default whenever `Lookup` finds nothing.

Two behaviours of the code are worth knowing:

- **Custom lesson ids.** `create_custom_lesson` names the new lesson `"C" + str(len(lessons) + 1)`
  and does not check that this id is unused. A lesson already stored under that id is replaced
  (`Catalogue.CustomLessonOverwrites`). The model proves when this cannot happen
  (`Catalogue.CustomLessonStaysFresh`, with `SeedLessons.SeedCustomIdsBounded`). Starting from
  the default catalogue, and more generally from any catalogue whose `C<n>` ids have `n` no larger
  than its size, custom ids are always fresh.
- **Empty random content.** `get_random_content` returns `[]` when the chosen lesson has no
  content at all. On the default catalogue every lesson has content, and non-emptiness is proved
  there (`SeedLessons.SeedContentNeverEmpty`).

## Model

| member | source | states |
|---|---|---|
| Lessons.NewLesson | src/data/lesson_manager.py:15-23 | a new lesson carries the given id, title, level and type, no content, empty instructions and zero targets |
| Lessons.AddContent | src/data/lesson_manager.py:25-30 | exactly one `{text, difficulty}` item is appended at the end; earlier items and every other field are unchanged |
| Lessons.SetInstructions | src/data/lesson_manager.py:32-34 | only the instructions change |
| Lessons.SetTargets | src/data/lesson_manager.py:36-39 | only the two targets change |
| Lessons.ToRecord | src/data/lesson_manager.py:41-52 | the dictionary written for a lesson has all eight keys; their values are fixed by the round trip below |
| Lessons.FromRecord | src/data/lesson_manager.py:54-67 | a lesson is produced iff id, title, level and type are all present; content, instructions and targets fall back to `[]`, `""`, 0 and 0 |
| Lessons.RecordRoundTrip | src/data/lesson_manager.py:41-67 | reading back the dictionary written for a lesson gives the same lesson, field for field |
| Lessons.MinimalRecordIsNewLesson | src/data/lesson_manager.py:54-67 | a dictionary with only the four required keys reads as a freshly constructed lesson |
| Lessons.ReadWriteReadStable | src/data/lesson_manager.py:41-67 | read, write, read gives what the first read gave |
| Catalogue.GetLesson | src/data/lesson_manager.py:171-173 | the lesson found is in the catalogue under that id; the result is absent iff no lesson has the id |
| Catalogue.GetLessonOfMember | src/data/lesson_manager.py:171-173 | with unique ids, looking up a member's id finds exactly that member |
| Catalogue.Put | src/data/lesson_manager.py:92-94 | keys stay unique; a new id is appended at the end, while an existing id is replaced in place and the size stays the same; other lessons keep their positions; the lesson is then found under its id and other lookups are unchanged |
| Catalogue.LessonsByLevel | src/data/lesson_manager.py:175-177 | exactly the catalogue's lessons at that level, in catalogue order, one per matching position |
| Catalogue.LessonsByType | src/data/lesson_manager.py:179-181 | exactly the catalogue's lessons of that type, in catalogue order, one per matching position |
| Catalogue.GetLessonProgress | src/data/lesson_manager.py:199-207 | reports the level and level + 1, together with the number of lessons at each |
| Catalogue.MinScan | src/data/lesson_manager.py:189-190 | the position found has the smallest id number, and every earlier position has a strictly larger one, so it is the first minimum, as `min` picks |
| Catalogue.FirstMinimal | src/data/lesson_manager.py:189-190 | the first position with the smallest id number in a non-empty list |
| Catalogue.NextLesson | src/data/lesson_manager.py:183-197 | if the level has a lesson numbered above the current one, the result is the lowest-numbered such lesson; otherwise it is the lowest-numbered lesson of the next level; it is absent iff both candidate sets are empty |
| Catalogue.NextLessonIsFirstMinimal | src/data/lesson_manager.py:185-195 | the lesson returned is the first minimum of the candidate list that the taken branch builds: later lessons of the level when there are any, otherwise all lessons of the next level |
| Catalogue.NextLessonTieBreak | src/data/lesson_manager.py:189-190 | every candidate listed before the chosen lesson has a strictly larger number, so ties go to the earliest lesson |
| Catalogue.CustomLessonId | src/data/lesson_manager.py:212 | the id is `C` followed by `str(size + 1)`: the canonical numeral, with no leading zero, whose value is the catalogue size plus one |
| Catalogue.AddAllContent | src/data/lesson_manager.py:215-216 | one difficulty-1 item is appended per text, in order; nothing else changes |
| Catalogue.CreateCustomLesson | src/data/lesson_manager.py:209-224 | the new lesson has the `C<size+1>` id, the given title, level, type and instructions, one difficulty-1 item per text, and targets 10 and 85; it is stored under its id and other lessons are unchanged |
| Catalogue.CustomLessonOverwrites | src/data/lesson_manager.py:212-221 | when `C2` already exists in a one-lesson catalogue, the new lesson replaces it and the catalogue does not grow |
| Catalogue.CustomLessonPlacement | src/data/lesson_manager.py:221 | the new lesson is appended at the end when its id is unused; otherwise it takes the place of the lesson with that id and the catalogue keeps its size; every other lesson stays at its position |
| Catalogue.CustomLessonStaysFresh | src/data/lesson_manager.py:212-221 | when every `C<n>` id has `n` at most the catalogue size, the new id is unused, the catalogue grows by exactly the new lesson, and the bound still holds |
| Catalogue.RandomContent | src/data/lesson_manager.py:226-238 | `[]` when no lesson has the type; otherwise, for the chosen lesson of that type, its texts with difficulty at most the limit (1 when omitted), in order; if there are none, all of its texts |
| Catalogue.RandomContentFromOneLesson | src/data/lesson_manager.py:226-238 | every returned text comes from one lesson of the requested type |
| Catalogue.SaveLessons | src/data/lesson_manager.py:98-101 | one dictionary per lesson, in order, each reading back as that lesson |
| Catalogue.LoadLessons | src/data/lesson_manager.py:86-96 | ids stay unique and earlier ids are kept; when every record has the required keys, exactly their ids are added; a first record without them leaves the catalogue as it was |
| Catalogue.LoadStopsAtFirstMissing | src/data/lesson_manager.py:88-96 | the first record missing a required key, wherever it is, ends the load: the result equals loading only the records before it, and exactly their ids are added |
| Catalogue.LoadAppend | src/data/lesson_manager.py:92-94 | once every record read so far is complete, reading one more complete record stores exactly the lesson it reads as under its id, replacing any earlier lesson with that id in place and leaving every other lesson and the order as they were |
| Catalogue.LoadSavedLessons | src/data/lesson_manager.py:86-101 | loading what was saved into an empty catalogue gives back the same catalogue, in the same order |
| SeedLessons.LetterA | src/data/lesson_manager.py:110-115 | lesson L1 is a level-1 letters lesson with two items |
| SeedLessons.LetterE | src/data/lesson_manager.py:117-122 | lesson L2 is a level-1 letters lesson with two items |
| SeedLessons.LetterI | src/data/lesson_manager.py:124-129 | lesson L3 is a level-1 letters lesson with two items |
| SeedLessons.SimpleWords | src/data/lesson_manager.py:132-140 | lesson W1 is a level-2 words lesson with five items |
| SeedLessons.AnimalWords | src/data/lesson_manager.py:142-150 | lesson W2 is a level-2 words lesson with five items |
| SeedLessons.ShortSentences | src/data/lesson_manager.py:153-159 | lesson Z1 is a level-3 sentences lesson with three items |
| SeedLessons.AnimalSentences | src/data/lesson_manager.py:161-167 | lesson Z2 is a level-3 sentences lesson with three items |
| SeedLessons.SeedCatalogue | src/data/lesson_manager.py:107-167 | the default catalogue holds seven lessons |
| SeedLessons.SeedLayout | src/data/lesson_manager.py:107-167 | the seven lessons in order are L1, L2, L3, W1, W2, Z1, Z2 |
| SeedLessons.SeedFields | src/data/lesson_manager.py:107-167 | each default lesson's id, level and type, and that every one has content |
| SeedLessons.SeedIdNumbers | src/data/lesson_manager.py:107-167 | every default id is well formed and is numbered by its single digit |
| SeedLessons.SeedUniqueIds | src/data/lesson_manager.py:107-167 | the default ids are distinct |
| SeedLessons.SeedShape | src/data/lesson_manager.py:107-167 | in the default catalogue, level 1 means letters (L1-L3), level 2 means words (W1-W2) and level 3 means sentences (Z1-Z2) |
| SeedLessons.SeedHasProfile | src/data/lesson_manager.py:107-167 | the default catalogue has the abstract shape the progression lemmas rely on |
| SeedLessons.SeedNextLessons | src/data/lesson_manager.py:183-197 | on the defaults, after (1, 1) comes L2, after (1, 3) comes W1, and after (3, 2) there is nothing |
| SeedLessons.ProfileNextLessons | src/data/lesson_manager.py:183-197 | the same three answers for any catalogue of the default shape |
| SeedLessons.ProfileMember | src/data/lesson_manager.py:107-167 | a lesson of such a catalogue has a well-formed id numbered 1 to 3, content, and a level from 1 to 3 |
| SeedLessons.ProfileParses | src/data/lesson_manager.py:186-196 | every id in such a catalogue parses |
| SeedLessons.ProfileNextAfterL1 | src/data/lesson_manager.py:186-190 | after lesson 1 of level 1 comes the lesson numbered 2 |
| SeedLessons.ProfileNextAfterL3 | src/data/lesson_manager.py:183-197 | after lesson 3 of level 1 comes the first lesson of level 2 |
| SeedLessons.ProfileNoLaterThanL3 | src/data/lesson_manager.py:186-188 | level 1 has no lesson numbered above 3 |
| SeedLessons.ProfileNextAfterZ2 | src/data/lesson_manager.py:183-197 | after the last level-3 lesson there is no next lesson, since level 4 is empty |
| SeedLessons.SeedContentNeverEmpty | src/data/lesson_manager.py:226-238 | on the defaults, sampling any of the three types returns a non-empty list drawn from a lesson of that type |
| SeedLessons.ProfileContentNeverEmpty | src/data/lesson_manager.py:226-238 | the same for any catalogue of the default shape |
| SeedLessons.SeedCustomIdsBounded | src/data/lesson_manager.py:107-167 | no default id looks like a custom id, so the freshness bound holds at start-up |
| SeedLessons.StartupCatalogue | src/data/lesson_manager.py:82-84 | the defaults are installed iff loading produced no lesson; otherwise the loaded lessons are kept |
| SeedLessons.StartupRestoresSaved | src/data/lesson_manager.py:82-101 | with no stored lessons, start-up gives the defaults; a saved non-empty catalogue comes back unchanged |
| Numerals.ParseDigits | src/data/lesson_manager.py:187 | `int` of a run of `k` ASCII digits is a number below `10^k` |
| Numerals.LeadingZero | src/data/lesson_manager.py:187 | a leading zero does not change the parsed value, so `C2` and `C02` parse alike although they are different ids |
| Numerals.NatToString | src/data/lesson_manager.py:212 | `str(n)` is a digit string with no leading zero |
| Numerals.ParsePrinted | src/data/lesson_manager.py:187 | parsing the printed form of `n` gives `n` back |
| Numerals.PrintedInjective | src/data/lesson_manager.py:212 | different counts print as different numerals |
| Users.NewUser | src/data/user_manager.py:15-39 | a new learner has the given name and age (10 when omitted), both timestamps set to now, level 1, lesson 1, all counters and averages 0, and no badges, games or results |
| Users.UpdateLogin | src/data/user_manager.py:82-84 | only the last-login time changes |
| Users.MovingAverage | src/data/user_manager.py:99-101 | the new average lies between the old value and the sample, and moves exactly half the way toward the sample |
| Users.CompleteLesson | src/data/user_manager.py:86-105 | the result for that lesson is written, replacing any earlier result, and other results are kept; the count rises by 1 and the points by the score; while the new count is positive (always, unless a stored count was negative), both averages move halfway to the new sample; the level rises by exactly 1 iff the new count is a multiple of 5; no other field changes |
| Users.AddStars | src/data/user_manager.py:107-109 | the star count rises by exactly the given amount; nothing else changes |
| Users.AddOnce | src/data/user_manager.py:111-119 | the name is listed afterwards; it is appended only when it was absent; a list without repeats stays without repeats |
| Users.UnlockBadge | src/data/user_manager.py:111-114 | only the badge list changes, by adding the badge once |
| Users.UnlockGame | src/data/user_manager.py:116-119 | only the game list changes, by adding the game once |
| Users.UnlockIdempotent | src/data/user_manager.py:111-119 | unlocking a badge or a game twice is the same as unlocking it once |
| Users.OperationsKeepValid | src/data/user_manager.py:15-119 | a new learner is valid, and every operation keeps a learner valid (level and lesson at least 1; points, lessons completed, stars, words typed and errors non-negative; averages in range; no repeated badges or games) when its inputs are in range, including a non-negative score |
| Users.CompleteAll | src/data/user_manager.py:86-97 | after a run of completions, the count has risen by the run's length |
| Users.LevelAfterCompletions | src/data/user_manager.py:104-105 | after `n` more completions from any stored count `k`, negative included, the level has risen by the number of multiples of 5 in `k+1 .. k+n` |
| Users.FifthLessonLevelsUp | src/data/user_manager.py:104-105 | a new learner is still at level 1 after four lessons and reaches level 2 with the fifth |
| Users.FirstSpeedIsHalved | src/data/user_manager.py:99-101 | a new learner's first speed of 20 is recorded as an average of 10; the first accuracy is likewise halved |
| Users.PointsAfterCompletions | src/data/user_manager.py:96-97 | after a run of completions, the points have risen by the sum of the scores |
| Users.ToRecord | src/data/user_manager.py:41-61 | the dictionary written for a learner has all sixteen keys |
| Users.FromRecord | src/data/user_manager.py:62-80 | a learner is read iff name and age are present; every missing key takes the new-learner value, and missing timestamps take now |
| Users.RecordRoundTrip | src/data/user_manager.py:41-80 | reading back the dictionary written for a learner gives the same learner, field for field |
| Users.MinimalRecordIsNewUser | src/data/user_manager.py:62-80 | a dictionary with only name and age reads as a new learner |
| UserStore.CreateUser | src/data/user_manager.py:153-161 | a taken name gives a duplicate-name error and leaves the store unchanged; otherwise a new learner with that name and age, created and last logged in at `now` and with fresh progress, is added and every other entry is unchanged |
| UserStore.GetUser | src/data/user_manager.py:163-165 | the learner under that name, absent iff the name is not a key |
| UserStore.DeleteUser | src/data/user_manager.py:167-173 | returns true iff the name was present; afterwards it is gone and every other learner is unchanged |
| UserStore.DuplicateCreateKeepsFirst | src/data/user_manager.py:153-161 | creating the same name twice fails the second time and keeps the first learner |
| UserStore.DeleteUndoesCreate | src/data/user_manager.py:153-173 | deleting a just-created learner restores the store and reports true |
| UserStore.SaveUsers | src/data/user_manager.py:144-147 | given an enumeration of the store's names without repeats, one dictionary per learner, each reading back as that learner |
| UserStore.LoadUsers | src/data/user_manager.py:132-142 | existing names are kept and the store stays keyed by learner name; when every record has name and age, exactly their names are added; a first record without them leaves the store as it was |
| UserStore.LoadStopsAtFirstMissing | src/data/user_manager.py:134-142 | the first record missing name or age, wherever it is, ends the load: the result equals loading only the records before it, and exactly their names are added |
| UserStore.LoadAppend | src/data/user_manager.py:138-140 | once every record read so far has name and age, reading one more such record files exactly the learner it reads as under its name, replacing any earlier entry with that name and leaving the other entries as they were |
| UserStore.LoadSavedUsers | src/data/user_manager.py:132-147 | loading what was saved, in any order of the names, into an empty store gives back the same store |
| DottedKeys.Split | src/utils/config.py:80 | `key.split('.')` has at least one part, no part contains a dot, and joining the parts with dots gives the key back |
| DottedKeys.SplitJoin | src/utils/config.py:80 | splitting dot-joined dot-free parts gives the parts back |
| DottedKeys.SplitSegment | src/utils/config.py:80 | a key without a dot splits into just itself |
| Settings.Lookup | src/utils/config.py:81-86 | the empty path reaches the value itself; a path whose first segment is missing, or that starts at a non-dictionary, reaches nothing |
| Settings.LookupAppend | src/utils/config.py:84-85 | walking `p + q` is walking `p` and then `q` |
| Settings.LookupFailsIffStuck | src/utils/config.py:84-88 | the walk fails iff at some segment the value reached is not a dictionary or lacks that key |
| Settings.Get | src/utils/config.py:78-88 | the value at the dotted path when every segment is found in a dictionary; the default otherwise, `None` (`Null`) when the caller gives none |
| Settings.Chain | src/utils/config.py:96-99 | the nest of new dictionaries built along a path holds the value at the end of that path |
| Settings.SetPath | src/utils/config.py:90-102 | on success, the top level gains the first segment, other top-level keys are unchanged, and the value is found at the path |
| Settings.Set | src/utils/config.py:90-102 | on success, `get` of the same key returns the value written, and every other top-level key is unchanged |
| Settings.GetAfterSet | src/utils/config.py:90-102 | after a successful `set(k, v)`, `get(k, d)` returns `v` for every default `d` |
| Settings.SingleSegmentSet | src/utils/config.py:102 | a key without a dot is written directly into the top-level dictionary |
| Settings.SetIntoEmpty | src/utils/config.py:96-102 | writing into an empty configuration creates the whole chain of dictionaries |
| Settings.SetFrame | src/utils/config.py:90-102 | every path that is neither a prefix nor an extension of the written path reads the same before and after |
| Settings.ChainDiverge | src/utils/config.py:96-99 | a newly created chain holds nothing off its own path |
| Settings.BelowSetPath | src/utils/config.py:90-102 | below the written path, lookups see exactly the written value |
| Settings.SetCreatesMissing | src/utils/config.py:96-99 | an intermediate segment that was missing now holds a new dictionary chain leading to the value |
| Settings.ChainPrefix | src/utils/config.py:96-99 | each prefix of a new chain leads to the rest of the chain |
| Settings.SetFailsIffBlocked | src/utils/config.py:94-99 | `set` fails iff some existing intermediate value on the path is not a dictionary |
| Settings.GetTwoLevels | src/utils/config.py:78-86 | a key `a.b` reaches entry `b` of the dictionary stored under `a` |
| Settings.DefaultConfig | src/utils/config.py:17-49 | the default settings hold exactly the eight top-level keys; colors, fonts, game settings and lessons are nested dictionaries, while theme and difficulty are plain values |
| Settings.DefaultRewardPoints | src/utils/config.py:38-43 | in the default configuration, `game_settings.reward_points` is 10 |

## Left out

- JSON file reading and writing (`load_lessons`, `save_lessons`, `load_users`, `save_all_users`,
  `load_config`, `save_config`) are modelled as operations on the dictionary form. Missing files,
  unreadable files and malformed JSON are not modelled.
- `print` logging of caught exceptions: it has no effect on state.
- `datetime.now()` is the `now` parameter, and `random.choice` is the `choice` index parameter.
- `Config.load_config`: when the configuration file exists it returns the stored JSON as it is,
  without merging in the defaults; only a missing file or a failed read falls back to
  `default_config`. Choosing between the two is file handling and is left out. `DefaultConfig`
  holds the fallback, with Python tuples (the fonts) as lists.
- `get_theme_colors`, `get_fonts`, `get_game_settings`: these are `get` with fixed keys.
- `lesson_categories`: a display-name table that no operation reads.
- `get_all_users`, `set_current_user`, `get_current_user`: the process-wide current learner
  pointer and a plain listing.
- `get_user_stats`: its `round(…, 1)` is floating-point formatting.
- Dynamic typing in dictionaries: a value of the wrong type under a known key (for example a
  string `level`) is not representable in the typed records.
- Floating point: averages, speeds and targets are exact reals. A configuration value's number is
  an integer (`Settings.Number`), so a JSON float such as `1.5` in the configuration cannot be
  represented; `get` and `set` never look inside numbers, so no modelled behaviour depends on it.
- Catalogue.NextLesson: parses ids only when they are one character followed by ASCII digits.
  Python's `int` also accepts a sign, surrounding whitespace, underscores and non-ASCII digits,
  and raises `ValueError` on anything else; neither is modelled.
- Catalogue.RandomContent: `choice` must lie in range, because `random.choice` always does;
  the distribution is not modelled.
- Settings.Set: the `TypeError` is modelled as a failure that leaves the configuration
  unchanged. In Python an exception can also come from a non-hashable key, which cannot occur
  with string segments.
- Catalogue.CreateCustomLesson, UserStore.CreateUser, UserStore.DeleteUser: the
  `save_lessons` and `save_all_users` calls that follow are file writes and are left out.
