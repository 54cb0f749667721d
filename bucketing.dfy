/**
 * `StudentVueData._courses_by_period`: the course mapping returned by the
 * StudentVUE client is spread over a fixed table of slots, two per period
 * (`period_<i>_x` and `period_<i>_y`), so that two courses sharing a period
 * number (alternating-day schedules) land in different slots.
 *
 * `CoursesByPeriod` is the routine itself, written as the source writes it:
 * one loop allocating the empty slots, one loop over the courses in mapping
 * order, and an inner loop copying a record's attributes into its slot.
 * `PeriodTable` is an independent, declarative statement of its result, and
 * the lemmas below state what that result is made of.
 */
module Bucketing {
  import opened Values

  /** The number of periods `_courses_by_period` allocates slots for unless told otherwise. */
  const DefaultMaxCourses := 8

  /** The two sub-slots of a period: `_x` for the first course seen, `_y` for every later one. */
  datatype Side = X | Y

  /** A course as the client lists it: its title (the key of the mapping) and its attribute record. */
  datatype Course = Course(title: string, record: map<string, Value>)

  type Slot = map<string, Value>
  type Slots = map<string, Slot>

  /** A Python dictionary has no two equal keys: the titles of the listed courses are distinct. */
  predicate DistinctTitles(courses: seq<Course>) {
    forall i, j :: 0 <= i < j < |courses| ==> courses[i].title != courses[j].title
  }

  function SideSuffix(side: Side): string {
    if side == X then "_x" else "_y"
  }

  /** The slot name `f"period_{period}_x"` (or `_y`) for a period value. */
  function SlotName(period: Value, side: Side): string {
    "period_" + Str(period) + SideSuffix(side)
  }

  /** A slot name reads as the text `period_`, then `str(period)`, then `_x` or `_y`. */
  lemma SlotNameParts(period: Value, side: Side)
    ensures var r := SlotName(period, side);
      && |r| == 9 + |Str(period)|
      && r[..7] == "period_" && r[7..|r| - 2] == Str(period)
      && r[|r| - 2] == '_' && r[|r| - 1] == (if side == X then 'x' else 'y')
  {
  }

  /** The names of the slots allocated for periods `1..n`: none when `n < 1`, as `range(1, n + 1)` is then empty. */
  function SlotNames(n: int): set<string>
    decreases n
  {
    if n < 1 then {} else SlotNames(n - 1) + {SlotName(Int(n), X), SlotName(Int(n), Y)}
  }

  /** Integer slot names are distinct: the period number and the side can be read back from the name. */
  lemma SlotNameInjective(p: int, q: int, s: Side, t: Side)
    requires SlotName(Int(p), s) == SlotName(Int(q), t)
    ensures p == q && s == t
  {
    var a, b := SlotName(Int(p), s), SlotName(Int(q), t);
    assert a[|a| - 1] == if s == X then 'x' else 'y';
    assert b[|b| - 1] == if t == X then 'x' else 'y';
    assert IntToDecimal(p) == a[7..|a| - 2];
    assert IntToDecimal(q) == b[7..|b| - 2];
    IntToDecimalInjective(p, q);
  }

  /** An integer period has a slot exactly when it lies in `1..n`. */
  lemma {:induction false} SlotNameInRange(p: int, side: Side, n: int)
    ensures SlotName(Int(p), side) in SlotNames(n) <==> 1 <= p <= n
    decreases n
  {
    if n >= 1 {
      SlotNameInRange(p, side, n - 1);
      if SlotName(Int(p), side) == SlotName(Int(n), X) {
        SlotNameInjective(p, n, side, X);
      } else if SlotName(Int(p), side) == SlotName(Int(n), Y) {
        SlotNameInjective(p, n, side, Y);
      }
    }
  }

  /** Every allocated slot is the `_x` or the `_y` slot of a period in `1..n`. */
  lemma {:induction false} SlotNamesMembers(n: int, key: string)
    requires key in SlotNames(n)
    ensures exists i :: 1 <= i <= n && (key == SlotName(Int(i), X) || key == SlotName(Int(i), Y))
    decreases n
  {
    if key !in SlotNames(n - 1) {
      assert key == SlotName(Int(n), X) || key == SlotName(Int(n), Y);
    } else {
      SlotNamesMembers(n - 1, key);
    }
  }

  lemma CardinalityAddTwo<T>(s: set<T>, x: T, y: T)
    requires x !in s && y !in s && x != y
    ensures |s + {x, y}| == |s| + 2
  {
    assert s + {x, y} == (s + {x}) + {y};
  }

  /** There are exactly `2 * n` slots for `n` periods. */
  lemma {:induction false} SlotNamesCount(n: nat)
    ensures |SlotNames(n)| == 2 * n
  {
    if n > 0 {
      var x, y := SlotName(Int(n), X), SlotName(Int(n), Y);
      SlotNamesCount(n - 1);
      SlotNameInRange(n, X, n - 1);
      SlotNameInRange(n, Y, n - 1);
      if x == y {
        SlotNameInjective(n, n, X, Y);
      }
      CardinalityAddTwo(SlotNames(n - 1), x, y);
      assert SlotNames(n) == SlotNames(n - 1) + {x, y};
    }
  }

  /** The first `n` courses all carry a `period` attribute. */
  predicate HasPeriods(courses: seq<Course>, n: nat)
    requires n <= |courses|
  {
    forall j :: 0 <= j < n ==> "period" in courses[j].record
  }

  function PeriodOf(c: Course): Value
    requires "period" in c.record
  {
    c.record["period"]
  }

  /** The list `periods` after the first `n` courses: each period value once, in first-seen order. */
  function Seen(courses: seq<Course>, n: nat): seq<Value>
    requires n <= |courses| && HasPeriods(courses, n)
  {
    if n == 0 then []
    else
      var s := Seen(courses, n - 1);
      var p := PeriodOf(courses[n - 1]);
      if p in s then s else s + [p]
  }

  /** The side course `j` is written to: `_x` unless its period was already seen. */
  function SideOf(courses: seq<Course>, j: nat): Side
    requires j < |courses| && HasPeriods(courses, j + 1)
  {
    if PeriodOf(courses[j]) in Seen(courses, j) then Y else X
  }

  /** The slot name course `j` is written to. */
  function Target(courses: seq<Course>, j: nat): string
    requires j < |courses| && HasPeriods(courses, j + 1)
  {
    SlotName(PeriodOf(courses[j]), SideOf(courses, j))
  }

  /**
   * What writing a course into a slot does: `course_title` is set to the
   * title, then every attribute of the record is copied over the slot, so a
   * `course_title` in the record wins and keys the record lacks survive.
   */
  function Written(slot: Slot, c: Course): (r: Slot)
    ensures r.Keys == slot.Keys + {"course_title"} + c.record.Keys
    ensures forall k :: k in c.record ==> r[k] == c.record[k]
    ensures r["course_title"] == if "course_title" in c.record then c.record["course_title"] else Text(c.title)
    ensures forall k :: k in slot && k !in c.record && k != "course_title" ==> r[k] == slot[k]
  {
    slot["course_title" := Text(c.title)] + c.record
  }

  /** The content of slot `key` after the first `n` courses: every course targeting it, written in order. */
  function SlotContent(courses: seq<Course>, key: string, n: nat): Slot
    requires n <= |courses| && HasPeriods(courses, n)
  {
    if n == 0 then map[]
    else
      var prev := SlotContent(courses, key, n - 1);
      if Target(courses, n - 1) == key then Written(prev, courses[n - 1]) else prev
  }

  /** Every course has a period, and every course's target slot was allocated. */
  predicate AllPlaced(courses: seq<Course>, maxCourses: int) {
    && HasPeriods(courses, |courses|)
    && forall j :: 0 <= j < |courses| ==> Target(courses, j) in SlotNames(maxCourses)
  }

  /**
   * The KeyError raised by the first course, from index `j` on, that cannot
   * be placed: `period` when the record has none (line 189), the slot name
   * when no such slot was allocated (line 195).
   */
  function FirstFailure(courses: seq<Course>, maxCourses: int, j: nat): Option<KeyError>
    requires j <= |courses| && HasPeriods(courses, j)
    decreases |courses| - j
  {
    if j == |courses| then None
    else if "period" !in courses[j].record then Some(KeyError("period"))
    else if Target(courses, j) !in SlotNames(maxCourses) then Some(KeyError(Target(courses, j)))
    else FirstFailure(courses, maxCourses, j + 1)
  }

  /** No course fails exactly when all of them are placed. */
  lemma {:induction false} FirstFailureNone(courses: seq<Course>, maxCourses: int, j: nat)
    requires j <= |courses| && HasPeriods(courses, j)
    requires forall i :: 0 <= i < j ==> Target(courses, i) in SlotNames(maxCourses)
    ensures FirstFailure(courses, maxCourses, j) == None <==> AllPlaced(courses, maxCourses)
    decreases |courses| - j
  {
    if j < |courses| && "period" in courses[j].record && Target(courses, j) in SlotNames(maxCourses) {
      FirstFailureNone(courses, maxCourses, j + 1);
    }
  }

  /**
   * The result of `_courses_by_period(courses, maxCourses)`: the KeyError of
   * the first course that cannot be placed, or the full slot table, where
   * each slot holds the courses targeting it, written in mapping order.
   */
  function PeriodTable(courses: seq<Course>, maxCourses: int): (r: Result<Slots>)
    ensures r.Err? <==> FirstFailure(courses, maxCourses, 0).Some?
    ensures r.Err? ==> FirstFailure(courses, maxCourses, 0) == Some(r.error)
    ensures r.Ok? ==> AllPlaced(courses, maxCourses) && r.value.Keys == SlotNames(maxCourses)
    ensures r.Ok? ==> forall key :: key in r.value ==> r.value[key] == SlotContent(courses, key, |courses|)
  {
    match FirstFailure(courses, maxCourses, 0)
    case Some(e) => Err(e)
    case None =>
      FirstFailureNone(courses, maxCourses, 0);
      Ok(map key | key in SlotNames(maxCourses) :: SlotContent(courses, key, |courses|))
  }

  /** Every course has a period, and every period is an integer. */
  predicate IntPeriods(courses: seq<Course>) {
    HasPeriods(courses, |courses|) && forall j :: 0 <= j < |courses| ==> PeriodOf(courses[j]).Int?
  }

  /** `periods` holds exactly the period values of the courses seen so far. */
  lemma {:induction false} SeenMembers(courses: seq<Course>, n: nat, v: Value)
    requires n <= |courses| && HasPeriods(courses, n)
    ensures v in Seen(courses, n) <==> exists i :: 0 <= i < n && PeriodOf(courses[i]) == v
  {
    if n > 0 {
      SeenMembers(courses, n - 1, v);
    }
  }

  /**
   * First seen wins `_x`: course `j` goes to the `_x` slot of its period
   * exactly when no earlier course has the same period, and to `_y` otherwise.
   */
  lemma FirstSeenWins(courses: seq<Course>, j: nat)
    requires j < |courses| && HasPeriods(courses, j + 1)
    ensures SideOf(courses, j) == X <==> forall i :: 0 <= i < j ==> PeriodOf(courses[i]) != PeriodOf(courses[j])
    ensures Target(courses, j) == SlotName(PeriodOf(courses[j]), SideOf(courses, j))
  {
    SeenMembers(courses, j, PeriodOf(courses[j]));
  }

  /** `_courses_by_period` returns a table exactly when every course is placed. */
  lemma PeriodTableOk(courses: seq<Course>, maxCourses: int)
    ensures PeriodTable(courses, maxCourses).Ok? <==> AllPlaced(courses, maxCourses)
  {
    FirstFailureNone(courses, maxCourses, 0);
  }

  /** The table always holds exactly the `2 * maxCourses` allocated slots. */
  lemma PeriodTableSlots(courses: seq<Course>, maxCourses: nat)
    requires PeriodTable(courses, maxCourses).Ok?
    ensures PeriodTable(courses, maxCourses).value.Keys == SlotNames(maxCourses)
    ensures |PeriodTable(courses, maxCourses).value| == 2 * maxCourses
  {
    SlotNamesCount(maxCourses);
    assert PeriodTable(courses, maxCourses).value.Keys == SlotNames(maxCourses);
  }

  /** With no courses, every one of the `2 * maxCourses` slots is present and empty. */
  lemma NoCourses(maxCourses: nat)
    ensures PeriodTable([], maxCourses).Ok?
    ensures |PeriodTable([], maxCourses).value| == 2 * maxCourses
    ensures forall key :: key in PeriodTable([], maxCourses).value ==> PeriodTable([], maxCourses).value[key] == map[]
  {
    PeriodTableOk([], maxCourses);
    PeriodTableSlots([], maxCourses);
  }

  /** Courses `m..n` that target other slots leave the slot as it was after the first `m`. */
  lemma {:induction false} SlotContentUnchanged(courses: seq<Course>, key: string, m: nat, n: nat)
    requires m <= n <= |courses| && HasPeriods(courses, n)
    requires forall i :: m <= i < n ==> Target(courses, i) != key
    ensures HasPeriods(courses, m)
    ensures SlotContent(courses, key, n) == SlotContent(courses, key, m)
    decreases n
  {
    if n > m {
      SlotContentUnchanged(courses, key, m, n - 1);
    }
  }

  lemma SlotContentUntargeted(courses: seq<Course>, key: string, n: nat)
    requires n <= |courses| && HasPeriods(courses, n)
    requires forall j :: 0 <= j < n ==> Target(courses, j) != key
    ensures SlotContent(courses, key, n) == map[]
  {
    SlotContentUnchanged(courses, key, 0, n);
  }

  lemma SlotContentSingle(courses: seq<Course>, key: string, n: nat, j: nat)
    requires j < n <= |courses| && HasPeriods(courses, n)
    requires Target(courses, j) == key
    requires forall i :: 0 <= i < n && i != j ==> Target(courses, i) != key
    ensures SlotContent(courses, key, n) == Written(map[], courses[j])
  {
    SlotContentUnchanged(courses, key, j + 1, n);
    SlotContentUntargeted(courses, key, j);
  }

  /** A slot targeted by exactly two courses holds the later one written over the earlier. */
  lemma SlotContentPair(courses: seq<Course>, key: string, n: nat, j: nat, k: nat)
    requires j < k < n <= |courses| && HasPeriods(courses, n)
    requires Target(courses, j) == key && Target(courses, k) == key
    requires forall l :: 0 <= l < n && l != j && l != k ==> Target(courses, l) != key
    ensures SlotContent(courses, key, n) == Written(Written(map[], courses[j]), courses[k])
  {
    SlotContentLast(courses, key, n, k);
    SlotContentSingle(courses, key, k, j);
  }

  /** The last course to target a slot is written over what the earlier ones left. */
  lemma SlotContentLast(courses: seq<Course>, key: string, n: nat, k: nat)
    requires k < n <= |courses| && HasPeriods(courses, n)
    requires Target(courses, k) == key
    requires forall l :: k < l < n ==> Target(courses, l) != key
    ensures HasPeriods(courses, k)
    ensures SlotContent(courses, key, n) == Written(SlotContent(courses, key, k), courses[k])
  {
    SlotContentUnchanged(courses, key, k + 1, n);
  }

  /** A slot no course is written to stays an empty dictionary. */
  lemma UntargetedSlotEmpty(courses: seq<Course>, maxCourses: int, key: string)
    requires AllPlaced(courses, maxCourses)
    requires key in SlotNames(maxCourses)
    requires forall j :: 0 <= j < |courses| ==> Target(courses, j) != key
    ensures PeriodTable(courses, maxCourses).Ok?
    ensures PeriodTable(courses, maxCourses).value[key] == map[]
  {
    PeriodTableOk(courses, maxCourses);
    SlotContentUntargeted(courses, key, |courses|);
  }

  /**
   * With integer periods, the `_x` slot of a period holds the first course
   * with that period and nothing else: its title under `course_title`
   * (unless the record has its own) and every attribute of its record.
   */
  lemma FirstCourseFillsX(courses: seq<Course>, maxCourses: int, j: nat)
    requires AllPlaced(courses, maxCourses) && IntPeriods(courses)
    requires j < |courses| && forall i :: 0 <= i < j ==> PeriodOf(courses[i]) != PeriodOf(courses[j])
    ensures Target(courses, j) == SlotName(PeriodOf(courses[j]), X)
    ensures PeriodTable(courses, maxCourses).Ok?
    ensures PeriodTable(courses, maxCourses).value[Target(courses, j)] == Written(map[], courses[j])
  {
    FirstSeenWins(courses, j);
    PeriodTableOk(courses, maxCourses);
    forall i | 0 <= i < |courses| && i != j
      ensures Target(courses, i) != Target(courses, j)
    {
      FirstSeenWins(courses, i);
      if Target(courses, i) == Target(courses, j) {
        SlotNameInjective(PeriodOf(courses[i]).i, PeriodOf(courses[j]).i, SideOf(courses, i), X);
        assert false;
      }
    }
    SlotContentSingle(courses, Target(courses, j), |courses|, j);
  }

  /** The first-failure scan skips a stretch of courses that are all placed. */
  lemma {:induction false} FirstFailureSkip(courses: seq<Course>, maxCourses: int, i: nat, j: nat)
    requires i <= j <= |courses| && HasPeriods(courses, j)
    requires forall k :: i <= k < j ==> Target(courses, k) in SlotNames(maxCourses)
    ensures FirstFailure(courses, maxCourses, i) == FirstFailure(courses, maxCourses, j)
    decreases j - i
  {
    if i < j {
      FirstFailureSkip(courses, maxCourses, i + 1, j);
    }
  }

  /** A course without a `period` attribute, reached after placed courses, raises `KeyError('period')`. */
  lemma MissingPeriodRaises(courses: seq<Course>, maxCourses: int, j: nat)
    requires j < |courses| && HasPeriods(courses, j) && "period" !in courses[j].record
    requires forall i :: 0 <= i < j ==> Target(courses, i) in SlotNames(maxCourses)
    ensures PeriodTable(courses, maxCourses) == Err(KeyError("period"))
  {
    FirstFailureSkip(courses, maxCourses, 0, j);
  }

  /**
   * An integer period outside `1..maxCourses` is not dropped: the first such
   * course raises a KeyError naming the slot it was to be written to.
   */
  lemma OutOfRangeRaises(courses: seq<Course>, maxCourses: int, j: nat)
    requires IntPeriods(courses) && j < |courses|
    requires !(1 <= PeriodOf(courses[j]).i <= maxCourses)
    requires forall i :: 0 <= i < j ==> 1 <= PeriodOf(courses[i]).i <= maxCourses
    ensures PeriodTable(courses, maxCourses) == Err(KeyError(Target(courses, j)))
  {
    forall i | 0 <= i < j ensures Target(courses, i) in SlotNames(maxCourses) {
      SlotNameInRange(PeriodOf(courses[i]).i, SideOf(courses, i), maxCourses);
    }
    SlotNameInRange(PeriodOf(courses[j]).i, SideOf(courses, j), maxCourses);
    FirstFailureSkip(courses, maxCourses, 0, j);
  }

  /** With integer periods, the table is produced exactly when every period lies in `1..maxCourses`. */
  lemma InRangeIffOk(courses: seq<Course>, maxCourses: int)
    requires IntPeriods(courses)
    ensures PeriodTable(courses, maxCourses).Ok? <==> forall j :: 0 <= j < |courses| ==> 1 <= PeriodOf(courses[j]).i <= maxCourses
  {
    PeriodTableOk(courses, maxCourses);
    forall j | 0 <= j < |courses|
      ensures Target(courses, j) in SlotNames(maxCourses) <==> 1 <= PeriodOf(courses[j]).i <= maxCourses
    {
      SlotNameInRange(PeriodOf(courses[j]).i, SideOf(courses, j), maxCourses);
    }
  }

  /**
   * Three courses `i < j < k` of one period, among any others: the first
   * fills `_x` alone, and the third is merged into the second's `_y` slot
   * rather than replacing it, so the third's attributes and title win and
   * keys only the second had survive.
   */
  lemma ThirdCollisionMerges(courses: seq<Course>, maxCourses: int, i: nat, j: nat, k: nat)
    requires IntPeriods(courses) && i < j < k < |courses|
    requires forall l :: 0 <= l < |courses| ==> 1 <= PeriodOf(courses[l]).i <= maxCourses
    requires PeriodOf(courses[j]) == PeriodOf(courses[i]) && PeriodOf(courses[k]) == PeriodOf(courses[i])
    requires forall l :: 0 <= l < |courses| && l != i && l != j && l != k ==> PeriodOf(courses[l]) != PeriodOf(courses[i])
    ensures PeriodTable(courses, maxCourses).Ok?
    ensures SlotName(PeriodOf(courses[i]), X) in PeriodTable(courses, maxCourses).value
    ensures SlotName(PeriodOf(courses[i]), Y) in PeriodTable(courses, maxCourses).value
    ensures PeriodTable(courses, maxCourses).value[SlotName(PeriodOf(courses[i]), X)] == Written(map[], courses[i])
    ensures var slot := PeriodTable(courses, maxCourses).value[SlotName(PeriodOf(courses[i]), Y)];
      && slot == Written(Written(map[], courses[j]), courses[k])
      && (forall key :: key in courses[k].record ==> slot[key] == courses[k].record[key])
      && (forall key :: key in courses[j].record && key !in courses[k].record && key != "course_title" ==>
            slot[key] == courses[j].record[key])
      && ("course_title" !in courses[k].record ==> slot["course_title"] == Text(courses[k].title))
  {
    var x, y := SlotName(PeriodOf(courses[i]), X), SlotName(PeriodOf(courses[i]), Y);
    CollisionTargets(courses, maxCourses, i, j, k);
    PeriodTableOk(courses, maxCourses);
    SlotContentSingle(courses, x, |courses|, i);
    SlotContentPair(courses, y, |courses|, j, k);
  }

  /**
   * Three courses `i < j < k` of one in-range period, no other course
   * sharing it: they target `_x`, `_y` and `_y`, and no other course targets
   * either slot.
   */
  lemma CollisionTargets(courses: seq<Course>, maxCourses: int, i: nat, j: nat, k: nat)
    requires IntPeriods(courses) && i < j < k < |courses|
    requires forall l :: 0 <= l < |courses| ==> 1 <= PeriodOf(courses[l]).i <= maxCourses
    requires PeriodOf(courses[j]) == PeriodOf(courses[i]) && PeriodOf(courses[k]) == PeriodOf(courses[i])
    requires forall l :: 0 <= l < |courses| && l != i && l != j && l != k ==> PeriodOf(courses[l]) != PeriodOf(courses[i])
    ensures AllPlaced(courses, maxCourses)
    ensures Target(courses, i) == SlotName(PeriodOf(courses[i]), X)
    ensures Target(courses, j) == Target(courses, k) == SlotName(PeriodOf(courses[i]), Y)
    ensures forall l :: 0 <= l < |courses| && l != i ==> Target(courses, l) != Target(courses, i)
    ensures forall l :: 0 <= l < |courses| && l != j && l != k ==> Target(courses, l) != Target(courses, j)
  {
    var p := PeriodOf(courses[i]).i;
    InRangeIffOk(courses, maxCourses);
    PeriodTableOk(courses, maxCourses);
    FirstSeenWins(courses, i);
    FirstSeenWins(courses, j);
    FirstSeenWins(courses, k);
    forall l | 0 <= l < |courses|
      ensures l != i ==> Target(courses, l) != Target(courses, i)
      ensures l != j && l != k ==> Target(courses, l) != Target(courses, j)
    {
      FirstSeenWins(courses, l);
      if Target(courses, l) == SlotName(Int(p), X) {
        SlotNameInjective(PeriodOf(courses[l]).i, p, SideOf(courses, l), X);
      }
      if Target(courses, l) == SlotName(Int(p), Y) {
        SlotNameInjective(PeriodOf(courses[l]).i, p, SideOf(courses, l), Y);
      }
    }
  }

  /**
   * Slot names come from Python's `str()` of the period, so a text period
   * `str(n)` shares `period_<n>_x` with an integer period `n`, while
   * `periods` still tells them apart: the second course is merged into the
   * first's `_x` slot and `period_<n>_y` stays empty.
   */
  lemma TextPeriodSharesSlot(a: Course, b: Course, n: int, maxCourses: int)
    requires "period" in a.record && a.record["period"] == Int(n)
    requires "period" in b.record && b.record["period"] == Text(IntToDecimal(n))
    requires 1 <= n <= maxCourses
    ensures SlotName(Int(n), X) == SlotName(Text(IntToDecimal(n)), X)
    ensures PeriodTable([a, b], maxCourses).Ok?
    ensures SlotName(Int(n), X) in PeriodTable([a, b], maxCourses).value
    ensures SlotName(Int(n), Y) in PeriodTable([a, b], maxCourses).value
    ensures PeriodTable([a, b], maxCourses).value[SlotName(Int(n), X)] == Written(Written(map[], a), b)
    ensures PeriodTable([a, b], maxCourses).value[SlotName(Int(n), Y)] == map[]
  {
    var courses := [a, b];
    var x, y := SlotName(Int(n), X), SlotName(Int(n), Y);
    if x == y {
      SlotNameInjective(n, n, X, Y);
    }
    assert Seen(courses, 1) == [Int(n)];
    assert Target(courses, 0) == x && Target(courses, 1) == x;
    SlotNameInRange(n, X, maxCourses);
    SlotNameInRange(n, Y, maxCourses);
    PeriodTableOk(courses, maxCourses);
    assert SlotContent(courses, x, 2) == Written(SlotContent(courses, x, 1), b);
    assert SlotContent(courses, y, 2) == SlotContent(courses, y, 1) == map[];
  }

  /** Lines 180-187: one empty slot dictionary per name `period_<i>_x` and `period_<i>_y`, for `i` in `1..maxCourses`. */
  method AllocateSlots(maxCourses: int) returns (periodsXY: Slots)
    ensures periodsXY.Keys == SlotNames(maxCourses)
    ensures forall key :: key in periodsXY ==> periodsXY[key] == map[]
  {
    periodsXY := map[];
    var i := 1;
    while i <= maxCourses
      invariant 1 <= i && (i == 1 || i <= maxCourses + 1)
      invariant periodsXY.Keys == SlotNames(i - 1)
      invariant forall key :: key in periodsXY ==> periodsXY[key] == map[]
    {
      var x := SlotName(Int(i), X);
      var y := SlotName(Int(i), Y);
      periodsXY := periodsXY[x := map[]];
      periodsXY := periodsXY[y := map[]];
      i := i + 1;
    }
    assert SlotNames(i - 1) == SlotNames(maxCourses);
  }

  /** Lines 195-197: a course written into its slot, first its title, then each of its attributes. */
  method FillSlot(slot: Slot, course: Course) returns (filled: Slot)
    ensures filled == Written(slot, course)
  {
    filled := slot["course_title" := Text(course.title)];
    ghost var titled := filled;
    var keys := course.record.Keys;
    while keys != {}
      invariant keys <= course.record.Keys
      invariant filled.Keys == titled.Keys + (course.record.Keys - keys)
      invariant forall k :: k in filled ==> filled[k] == if k in course.record.Keys - keys then course.record[k] else titled[k]
      decreases keys
    {
      var k :| k in keys;
      filled := filled[k := course.record[k]];
      keys := keys - {k};
    }
  }

  /** Placing course `j` in its slot extends the table and the failure scan from `j` courses to `j + 1`. */
  lemma PlaceCourse(courses: seq<Course>, maxCourses: int, j: nat, table: Slots)
    requires j < |courses| && HasPeriods(courses, j + 1)
    requires table.Keys == SlotNames(maxCourses)
    requires forall key :: key in table ==> table[key] == SlotContent(courses, key, j)
    requires Target(courses, j) in table
    ensures var next := table[Target(courses, j) := Written(table[Target(courses, j)], courses[j])];
      && next.Keys == SlotNames(maxCourses)
      && forall key :: key in next ==> next[key] == SlotContent(courses, key, j + 1)
    ensures FirstFailure(courses, maxCourses, j) == FirstFailure(courses, maxCourses, j + 1)
  {
  }

  /** A failure found while scanning course `j`, with none before it, is the table's error. */
  lemma FailureIsResult(courses: seq<Course>, maxCourses: int, j: nat)
    requires j <= |courses| && HasPeriods(courses, j)
    requires FirstFailure(courses, maxCourses, 0) == FirstFailure(courses, maxCourses, j)
    requires FirstFailure(courses, maxCourses, j).Some?
    ensures PeriodTable(courses, maxCourses) == Err(FirstFailure(courses, maxCourses, j).value)
  {
  }

  /** A scan that reached the end without failing has built the whole table. */
  lemma CompleteIsResult(courses: seq<Course>, maxCourses: int, table: Slots)
    requires HasPeriods(courses, |courses|)
    requires FirstFailure(courses, maxCourses, 0) == None
    requires table.Keys == SlotNames(maxCourses)
    requires forall key :: key in table ==> table[key] == SlotContent(courses, key, |courses|)
    ensures PeriodTable(courses, maxCourses) == Ok(table)
  {
    assert table == map key | key in SlotNames(maxCourses) :: SlotContent(courses, key, |courses|);
  }

  /** `_courses_by_period` (sensor.py lines 177-198). */
  method CoursesByPeriod(courses: seq<Course>, maxCourses: int) returns (r: Result<Slots>)
    requires DistinctTitles(courses)
    ensures r == PeriodTable(courses, maxCourses)
  {
    var periods: seq<Value> := [];
    var periodsXY := AllocateSlots(maxCourses);
    var j := 0;
    while j < |courses|
      invariant j <= |courses| && HasPeriods(courses, j)
      invariant FirstFailure(courses, maxCourses, 0) == FirstFailure(courses, maxCourses, j)
      invariant periods == Seen(courses, j)
      invariant periodsXY.Keys == SlotNames(maxCourses)
      invariant forall key :: key in periodsXY ==> periodsXY[key] == SlotContent(courses, key, j)
    {
      var course := courses[j];
      if "period" !in course.record {
        FailureIsResult(courses, maxCourses, j);
        return Err(KeyError("period"));
      }
      var period := course.record["period"];
      var periodName: string;
      if period !in periods {
        periodName := SlotName(period, X);
        periods := periods + [period];
      } else {
        periodName := SlotName(period, Y);
      }
      assert HasPeriods(courses, j + 1);
      assert periodName == Target(courses, j);
      if periodName !in periodsXY {
        FailureIsResult(courses, maxCourses, j);
        return Err(KeyError(periodName));
      }
      var slot := FillSlot(periodsXY[periodName], course);
      PlaceCourse(courses, maxCourses, j, periodsXY);
      periodsXY := periodsXY[periodName := slot];
      j := j + 1;
    }
    CompleteIsResult(courses, maxCourses, periodsXY);
    r := Ok(periodsXY);
  }
}
