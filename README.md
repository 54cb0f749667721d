# StudentVUE sensors for Home Assistant, in Dafny

This project models the core of the `synergyvue` Home Assistant integration,
which exposes a student's StudentVUE record as sensors.

- `StudentVueData` keeps one snapshot dictionary per student and refreshes it
  from the StudentVUE client.
- While refreshing, `_courses_by_period` spreads the client's course mapping over
  a fixed table of slots. There are two slots per period, `period_<i>_x` and
  `period_<i>_y`, so that two courses sharing a period number (an alternating-day
  schedule) both get shown.
- Each `StudentVueSensor` picks its projection of the snapshot from substrings of
  its entity id. The projections are a course slot, the GPA, the
  missing-assignment count, the grade, or a summary of the whole snapshot.

The project has four modules:

- `Values` (`values.dfy`) holds the Python values that flow through the
  platform, Python's `str()` of them, and the `KeyError` a missing dictionary
  key raises.
- `Bucketing` (`bucketing.dfy`) holds `_courses_by_period`.
  - `CoursesByPeriod` is written the way the source writes it: a loop allocates
    the slots, a loop walks the courses in mapping order, and an inner loop
    copies a record into its slot.
  - It is proved equal to `PeriodTable`, a declarative statement of the result.
    The lemmas about `PeriodTable` state what a slot ends up holding.
- `Snapshot` (`snapshot.dfy`) holds `StudentVueData`: a class whose `data` field
  is the snapshot, and whose `Update` writes it key by key.
- `Sensors` (`sensors.dfy`) holds `StudentVueSensor`.
  - It is a class with the entity's name, state and attributes, and an `Update`
    that dispatches on the entity id.
  - Lemmas tie the entity ids that `setup_platform` creates to the projection
    each id selects, and to what that projection shows after a refresh.

Python semantics the model keeps:

- A slot name is built with an f-string, so it uses `str()` of the period. An
  integer period `3` and a text period `"3"` are different members of the
  `periods` list, yet both name the slot `period_3_x`.
- A missing key raises `KeyError`, and a `KeyError` propagates out of
  `update`, except in the period branch of the sensor, whose bare `except`
  swallows every failure.
- `entity_id.split("_", 2)[2]` raises `IndexError` when the id has fewer than two
  underscores. The model returns `None` there, which the period branch treats
  like any other swallowed failure.

Behaviour that follows the code as written:

- An integer period outside `1..max_courses` is not dropped. Writing to its slot
  raises `KeyError`, and the whole refresh aborts (`Bucketing.OutOfRangeRaises`).
- A third course with an already-used period is merged into the `_y` slot on top
  of the second course. Its attributes and title win, and keys only the second
  course had survive (`Bucketing.ThirdCollisionMerges`).
- When bucketing raises during a refresh, `course_count` has already been
  overwritten and every other key keeps its old value. The snapshot is then
  partly refreshed (`Snapshot.StudentVueData.Update`).
- A record's own `course_title` attribute replaces the course's title, because
  the record is copied after the title is written (`Bucketing.Written`).

## Model

All source cells refer to `custom_components/synergyvue/sensor.py`.

| member | source | states |
|---|---|---|
| Values.NatToDecimal | custom_components/synergyvue/sensor.py:183-184 | `str()` of a natural number is a non-empty string of decimal digits, with no leading zero |
| Values.IntToDecimal | custom_components/synergyvue/sensor.py:183-184 | `str()` of an int is non-empty and starts with `-` exactly when the int is negative |
| Values.IntToDecimalDigits | custom_components/synergyvue/sensor.py:183-184 | `str()` of an int is canonical: the digits after an optional `-` parse back to the magnitude, with no leading zero, so a text period such as `"03"` names no allocated slot |
| Values.ParseNatToDecimal | custom_components/synergyvue/sensor.py:183-184 | parsing the decimal text of `n` gives back `n`, so the printed period number can be recovered |
| Values.IntToDecimalInjective | custom_components/synergyvue/sensor.py:183-184 | distinct integers print differently |
| Values.Str | custom_components/synergyvue/sensor.py:183-194 | `str()` of an int is its decimal form, starting with `-` exactly when negative; a text is itself; None prints as `None` |
| Bucketing.SlotNameParts | custom_components/synergyvue/sensor.py:183-194 | a slot name is `period_`, then `str(period)`, then `_x` or `_y`, each readable at its position |
| Bucketing.SlotNameInjective | custom_components/synergyvue/sensor.py:183-194 | two slot names built from integer periods are equal only when the periods and the sides are equal |
| Bucketing.SlotNameInRange | custom_components/synergyvue/sensor.py:182-187 | the slot of integer period `p` is allocated exactly when `1 <= p <= max_courses`, for either side |
| Bucketing.SlotNamesMembers | custom_components/synergyvue/sensor.py:182-187 | the allocated names are exactly `period_<i>_x` and `period_<i>_y` for `i` in `1..max_courses` |
| Bucketing.SlotNamesCount | custom_components/synergyvue/sensor.py:182-187 | `2 * max_courses` distinct slots are allocated |
| Bucketing.AllocateSlots | custom_components/synergyvue/sensor.py:180-187 | the allocation loop yields exactly the allocated names, each mapped to an empty dictionary |
| Bucketing.Written | custom_components/synergyvue/sensor.py:195-197 | writing a course into a slot adds `course_title` and the record's keys; record values win; `course_title` is the title unless the record has its own; other keys survive |
| Bucketing.FillSlot | custom_components/synergyvue/sensor.py:195-197 | the title assignment and the attribute-copy loop produce `Written(slot, course)` |
| Bucketing.CoursesByPeriod | custom_components/synergyvue/sensor.py:177-198 | the routine returns `PeriodTable`: the first `KeyError` a course raises, or the full slot table |
| Bucketing.PeriodTable | custom_components/synergyvue/sensor.py:177-198 | the result is an error exactly when some course fails, and then the first failure's KeyError; otherwise all courses are placed, the keys are the allocated names, and each slot holds the courses targeting it, written in mapping order |
| Bucketing.FirstFailureNone | custom_components/synergyvue/sensor.py:188-195 | no course raises exactly when every course has a period and its target slot was allocated |
| Bucketing.PeriodTableOk | custom_components/synergyvue/sensor.py:188-198 | a table is returned if and only if every course is placed |
| Bucketing.PeriodTableSlots | custom_components/synergyvue/sensor.py:180-187 | a returned table has exactly the allocated slots, `2 * max_courses` of them, whatever the courses |
| Bucketing.NoCourses | custom_components/synergyvue/sensor.py:180-198 | with no courses, every one of the `2 * max_courses` slots is an empty dictionary |
| Bucketing.SeenMembers | custom_components/synergyvue/sensor.py:188-192 | `periods` holds exactly the period values of the courses visited so far |
| Bucketing.FirstSeenWins | custom_components/synergyvue/sensor.py:188-194 | a course goes to `_x` if and only if no earlier course has the same period, and otherwise to `_y` |
| Bucketing.SlotContentUnchanged | custom_components/synergyvue/sensor.py:195-197 | courses that target other slots leave a slot as it was |
| Bucketing.SlotContentUntargeted | custom_components/synergyvue/sensor.py:185-197 | a slot that no course targets stays empty |
| Bucketing.SlotContentSingle | custom_components/synergyvue/sensor.py:195-197 | a slot targeted by exactly one course holds exactly that course written into an empty dictionary |
| Bucketing.SlotContentLast | custom_components/synergyvue/sensor.py:195-197 | the last course to target a slot is written over what the earlier ones left |
| Bucketing.SlotContentPair | custom_components/synergyvue/sensor.py:195-197 | a slot targeted by exactly two courses holds the later written over the earlier |
| Bucketing.UntargetedSlotEmpty | custom_components/synergyvue/sensor.py:185-197 | in a returned table, a slot no course targets is an empty dictionary |
| Bucketing.FirstCourseFillsX | custom_components/synergyvue/sensor.py:188-197 | with integer periods, the `_x` slot of a period holds its first course and nothing else |
| Bucketing.FirstFailureSkip | custom_components/synergyvue/sensor.py:188-195 | courses that are all placed do not change which course raises first |
| Bucketing.MissingPeriodRaises | custom_components/synergyvue/sensor.py:188-189 | the first course without a `period` attribute, reached after placed courses, raises `KeyError('period')` |
| Bucketing.OutOfRangeRaises | custom_components/synergyvue/sensor.py:188-195 | the first integer period outside `1..max_courses` raises a `KeyError` naming its slot |
| Bucketing.InRangeIffOk | custom_components/synergyvue/sensor.py:182-195 | with integer periods, a table is returned if and only if every period lies in `1..max_courses` |
| Bucketing.CollisionTargets | custom_components/synergyvue/sensor.py:188-194 | courses `i < j < k` of one in-range integer period, among other courses of other periods, target `_x`, `_y` and `_y`, and no other course targets those slots |
| Bucketing.ThirdCollisionMerges | custom_components/synergyvue/sensor.py:188-197 | for courses `i < j < k` sharing a period, with other courses anywhere in between, `_x` holds course `i` alone and `_y` holds course `k` merged over course `j`: `k`'s keys and title win and `j`'s other keys survive |
| Bucketing.TextPeriodSharesSlot | custom_components/synergyvue/sensor.py:188-195 | for any `n` in `1..max_courses`, a course with period `n` and one with period `str(n)` both go to `period_<n>_x`, the later merged over the earlier; `period_<n>_y` stays empty |
| Snapshot.StudentVueData.constructor | custom_components/synergyvue/sensor.py:164-165 | the snapshot starts empty |
| Snapshot.StudentVueData.Update | custom_components/synergyvue/sensor.py:201-223 | a client that cannot be built leaves the snapshot unchanged; a bucketing error leaves only `course_count` rewritten and propagates; otherwise the snapshot becomes `Refreshed` |
| Snapshot.Refreshed | custom_components/synergyvue/sensor.py:208-223 | the snapshot after a refresh: the client's properties written key by key over the old snapshot; its contract places the slot table under `courses`, and the lemmas below state the other keys |
| Snapshot.RefreshedDomain | custom_components/synergyvue/sensor.py:208-223 | a refresh adds exactly the sixteen refreshed keys |
| Snapshot.RefreshedKeepsOthers | custom_components/synergyvue/sensor.py:208-223 | keys a refresh does not write keep their values |
| Snapshot.RefreshedRenamed | custom_components/synergyvue/sensor.py:209-222 | `courses` holds the slot table, `name` the first name, `school` the school name |
| Snapshot.RefreshedFieldsFirst | custom_components/synergyvue/sensor.py:208-213 | `course_count` through `last_updated` hold the client property of the same name |
| Snapshot.RefreshedFieldsSecond | custom_components/synergyvue/sensor.py:214-223 | `meeting_date` through `url` hold the client property of the same name |
| Snapshot.RefreshIdempotent | custom_components/synergyvue/sensor.py:208-223 | refreshing twice from the same client gives the snapshot one refresh gives |
| Sensors.ContainsAt | custom_components/synergyvue/sensor.py:109 | Python's substring test holds if and only if the text occurs at some index |
| Sensors.NoMatchAt | custom_components/synergyvue/sensor.py:109-136 | a window whose first character is not `_`, or whose `_` is followed by a character other than the marker's second, is not the marker |
| Sensors.NotContainedAfterUnderscore | custom_components/synergyvue/sensor.py:109-136 | an underscore-led marker is absent from an id where no `_` is followed by its second character |
| Sensors.KindOf | custom_components/synergyvue/sensor.py:109-141 | the branch taken: period exactly when the id contains `_period_`; GPA when it contains `_gpa` and not `_period_`; missing assignments, grade and summary likewise, each only when no earlier marker matched |
| Sensors.SplitAtUnderscore | custom_components/synergyvue/sensor.py:112 | splitting fails if and only if there is no `_`; otherwise the head has no `_` and head, `_` and tail rebuild the id |
| Sensors.SplitAtFirstUnderscore | custom_components/synergyvue/sensor.py:112 | splitting `a_b` with an underscore-free `a` gives back `a` and `b` |
| Sensors.SlotKeyOfJoined | custom_components/synergyvue/sensor.py:112 | `split("_", 2)[2]` of `a_b_c`, with `a` and `b` free of `_`, is `c` |
| Sensors.SlotKey | custom_components/synergyvue/sensor.py:112 | a slot key read from an id is its text after two underscore-free parts; no key is read exactly when the id has fewer than two `_` (where Python raises IndexError) |
| Sensors.CourseSlot | custom_components/synergyvue/sensor.py:113-119 | the slot is found exactly when the key is read, `courses` is in the snapshot and is a slot table, and the key is one of its slots; it is then that slot |
| Sensors.FirstMissing | custom_components/synergyvue/sensor.py:144-158 | the result is the first listed key the snapshot lacks, or none when all are present |
| Sensors.SummaryAttributes | custom_components/synergyvue/sensor.py:144-158 | the summary exists if and only if all thirteen keys are present, and then holds exactly them with the snapshot's values; otherwise the error names the first listed key the snapshot lacks, as the dictionary display raises on it |
| Sensors.Lifted | custom_components/synergyvue/sensor.py:116-117 | the copied attributes have the slot's keys and values |
| Sensors.SetupIdChars | custom_components/synergyvue/sensor.py:42-82 | in `sensor.studentvue_<id><suffix>`, the only `_` before the suffix is the one after `studentvue` |
| Sensors.SetupIdFollowers | custom_components/synergyvue/sensor.py:42-82 | every `_` of such an id is followed by a digit or by the next character of the suffix |
| Sensors.SuffixOccurs | custom_components/synergyvue/sensor.py:42-82 | any prefix of the suffix occurs in the id |
| Sensors.SummaryIdDispatch | custom_components/synergyvue/sensor.py:47-141 | the summary sensor's id matches none of the four markers, so it shows the summary |
| Sensors.GpaIdDispatch | custom_components/synergyvue/sensor.py:64-129 | the `_gpa` sensor's id skips the period branch and shows the GPA |
| Sensors.MissingAssignmentsIdDispatch | custom_components/synergyvue/sensor.py:66-134 | the `_missing_assignments` sensor's id skips the period and GPA branches |
| Sensors.GpaNotInGradeId | custom_components/synergyvue/sensor.py:65-136 | `_gpa` does not occur in the `_grade` sensor's id |
| Sensors.GradeIdDispatch | custom_components/synergyvue/sensor.py:65-139 | the `_grade` sensor's id skips the earlier branches and shows the grade |
| Sensors.PeriodKeyDispatch | custom_components/synergyvue/sensor.py:109-112 | an id ending in `_` and a key beginning `period_` contains `_period_`, and its slot key is that key |
| Sensors.PeriodIdDispatch | custom_components/synergyvue/sensor.py:48-112 | a period sensor's id takes the period branch, and its slot key is exactly `period_<i>_<side>` |
| Sensors.SummaryAfterRefresh | custom_components/synergyvue/sensor.py:141-158 | after a refresh the summary exists and shows the client's fields, with the first name as `name` and the school name as `school` |
| Sensors.PeriodSensorFindsSlot | custom_components/synergyvue/sensor.py:48-113 | after a successful refresh, each of the sixteen period sensors finds its slot in the new table |
| Sensors.EmptySlotSensor | custom_components/synergyvue/sensor.py:113-124 | a period sensor whose slot no course targets reads an empty slot, with no `grade_letter` |
| Sensors.StudentVueSensor.constructor | custom_components/synergyvue/sensor.py:75-82 | the entity id is `sensor.<name>`, the state `off`, and there are no attributes |
| Sensors.StudentVueSensor.Update | custom_components/synergyvue/sensor.py:104-158 | the branches are tried in this order: period, GPA, missing assignments, grade, summary. The period branch never raises; it always clears the attributes, sets state and attributes only when `grade_letter` is found, and sets the name only when `course_title` is found. The GPA, missing-assignment and grade branches set the name, then raise `KeyError` on a missing key and keep the old state. The summary branch raises on a missing `name` before changing anything, then on a missing `meeting_day` after setting the name, then on the first missing summary key after setting name and state |

## Left out

- The `Throttle` decorator on `update` (line 200) is left out because it depends on the wall clock. Every call is modelled as a real refresh.
- The StudentVUE client is not part of this model.
  - Logging in and scraping are left out.
  - `Snapshot.StudentVueData.Update` receives the client's property values, or `None` when construction raised.
  - A property read that raises after construction is not modelled.
- `self._data.update()` at line 106 is left out of the sensor. `Sensors.StudentVueSensor.Update` takes the snapshot as it is after that call, and the refresh itself is `Snapshot.StudentVueData.Update`.
- `setup_platform` (lines 33-69) is left out as an operation.
  - Only the names it builds are modelled (`Sensors.SetupName`).
  - The configuration schema, `add_entities` and the Home Assistant object are left out.
- Sensors.SummaryIdDispatch, Sensors.GpaIdDispatch, Sensors.MissingAssignmentsIdDispatch, Sensors.GradeIdDispatch and Sensors.PeriodIdDispatch cover only non-empty all-digit student ids.
  - Setup returns early on a falsy id.
  - An id holding `_` or a marker such as `_gpa` would change the dispatch.
- The property getters `name`, `state`, `device_state_attributes` and `icon` (lines 84-102) and the icon constant are left out because they only return fields.
- Floats and booleans are left out.
  - Python's equality across types (`1 == 1.0 == True`), which `period not in periods` would use, is therefore not captured.
  - Integers, text and `None` compare as Python compares them.
- Courses are a sequence of title and record pairs in the mapping's iteration order. Distinct titles stand in for dictionary keys.
- Exceptions other than `KeyError` are left out: the routine cannot raise them on the modelled values. The exceptions are:
  - a period slot key that cannot be read, which is `None` in the model
  - a non-dictionary `courses` entry, which the period branch swallows
- Bucketing.CoursesByPeriod: the slot dictionaries are values. Two names never share one dictionary object in the source, so aliasing is not modelled.
- Logging (`_LOGGER`) is left out because it has no effect on state.
