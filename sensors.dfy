/**
 * `StudentVueSensor`: one Home Assistant entity per projection of the
 * snapshot. `update` decides from substrings of the entity id which
 * projection it shows: a period slot, the GPA, the missing-assignment count,
 * the grade, or the summary of the whole snapshot.
 */
module Sensors {
  import opened Values
  import opened Bucketing
  import opened Snapshot

  /** Python's `t in s` on strings: `t` occurs in `s` as a contiguous piece. */
  predicate Contains(s: string, t: string)
    decreases |s|
  {
    |t| <= |s| && (s[..|t|] == t || (|s| > 0 && Contains(s[1..], t)))
  }

  /** `t` occurs in `s` at index `i`. */
  predicate OccursAt(s: string, t: string, i: int) {
    0 <= i <= |s| - |t| && s[i..i + |t|] == t
  }

  /** `Contains` holds exactly when `t` occurs somewhere in `s`. */
  lemma {:induction false} ContainsAt(s: string, t: string)
    ensures Contains(s, t) <==> exists i :: OccursAt(s, t, i)
    decreases |s|
  {
    if |t| <= |s| && s[..|t|] == t {
      assert OccursAt(s, t, 0);
    } else if |t| <= |s| && |s| > 0 {
      ContainsAt(s[1..], t);
      if exists i :: OccursAt(s, t, i) {
        var i :| OccursAt(s, t, i);
        assert i > 0;
        assert OccursAt(s[1..], t, i - 1);
      }
      if Contains(s[1..], t) {
        var i :| OccursAt(s[1..], t, i);
        assert OccursAt(s, t, i + 1);
      }
    }
  }

  /** A string in which no `_` is followed by the second character of an underscore-led `t` does not contain `t`. */
  lemma NotContainedAfterUnderscore(s: string, t: string)
    requires |t| >= 2 && t[0] == '_'
    requires forall i :: 0 <= i < |s| - 1 && s[i] == '_' ==> s[i + 1] != t[1]
    ensures !Contains(s, t)
  {
    ContainsAt(s, t);
    forall i | 0 <= i <= |s| - |t| ensures !OccursAt(s, t, i) {
      NoMatchAt(s, t, i);
    }
  }

  /** The window at `i` differs from `t` in its first or its second character. */
  lemma NoMatchAt(s: string, t: string, i: int)
    requires |t| >= 2 && t[0] == '_' && 0 <= i <= |s| - |t|
    requires s[i] == '_' ==> s[i + 1] != t[1]
    ensures s[i..i + |t|] != t
  {
    if s[i] == '_' {
      assert s[i..i + |t|][1] == s[i + 1];
    } else {
      assert s[i..i + |t|][0] == s[i];
    }
  }

  /** The projection a sensor shows, in the order `update` tests for it. */
  datatype Kind = PeriodSlot | Gpa | MissingAssignments | Grade | Summary

  /** The projection chosen from the entity id (sensor.py lines 109, 126, 131, 136). */
  function KindOf(entityId: string): (r: Kind)
    ensures r == PeriodSlot <==> Contains(entityId, "_period_")
    ensures r == Gpa <==> !Contains(entityId, "_period_") && Contains(entityId, "_gpa")
    ensures r == MissingAssignments <==>
      !Contains(entityId, "_period_") && !Contains(entityId, "_gpa") && Contains(entityId, "_missing_assignments")
    ensures r == Grade <==>
      && !Contains(entityId, "_period_") && !Contains(entityId, "_gpa") && !Contains(entityId, "_missing_assignments")
      && Contains(entityId, "_grade")
    ensures r == Summary <==>
      && !Contains(entityId, "_period_") && !Contains(entityId, "_gpa") && !Contains(entityId, "_missing_assignments")
      && !Contains(entityId, "_grade")
  {
    if Contains(entityId, "_period_") then PeriodSlot
    else if Contains(entityId, "_gpa") then Gpa
    else if Contains(entityId, "_missing_assignments") then MissingAssignments
    else if Contains(entityId, "_grade") then Grade
    else Summary
  }

  /** `s.split("_", 1)` when it splits: the text before the first `_` and the text after it. */
  function SplitAtUnderscore(s: string): (r: Option<(string, string)>)
    ensures r.None? <==> '_' !in s
    ensures r.Some? ==> '_' !in r.value.0 && s == r.value.0 + "_" + r.value.1
  {
    if s == [] then None
    else if s[0] == '_' then Some(([], s[1..]))
    else
      match SplitAtUnderscore(s[1..])
      case None => None
      case Some((head, tail)) => Some(([s[0]] + head, tail))
  }

  /**
   * `entity_id.split("_", 2)[2]`: the text after the second `_`, or None
   * where Python raises IndexError because the id has fewer than two `_`.
   */
  function SlotKey(entityId: string): (r: Option<string>)
    ensures r.Some? ==> exists a: string, b: string ::
      '_' !in a && '_' !in b && entityId == a + "_" + b + "_" + r.value
    ensures r.None? ==> '_' !in entityId || exists a: string, b: string ::
      '_' !in a && '_' !in b && entityId == a + "_" + b
  {
    match SplitAtUnderscore(entityId)
    case None => None
    case Some((a, rest)) =>
      match SplitAtUnderscore(rest)
      case None => assert entityId == a + "_" + rest; None
      case Some((b, key)) => assert entityId == a + "_" + b + "_" + key; Some(key)
  }

  lemma {:induction false} SplitAtFirstUnderscore(a: string, b: string)
    requires '_' !in a
    ensures SplitAtUnderscore(a + "_" + b) == Some((a, b))
  {
    if a != [] {
      assert (a + "_" + b)[1..] == a[1..] + "_" + b;
      SplitAtFirstUnderscore(a[1..], b);
      assert [a[0]] + a[1..] == a;
    } else {
      assert (a + "_" + b)[1..] == b;
    }
  }

  /** Splitting undoes joining: the slot key of `a_b_c` is `c` when `a` and `b` hold no underscore. */
  lemma SlotKeyOfJoined(a: string, b: string, c: string)
    requires '_' !in a && '_' !in b
    ensures SlotKey(a + "_" + b + "_" + c) == Some(c)
  {
    assert a + "_" + b + "_" + c == a + "_" + (b + "_" + c);
    SplitAtFirstUnderscore(a, b + "_" + c);
    SplitAtFirstUnderscore(b, c);
  }

  /** `sv_data["courses"][key]` for the slot key of the entity id, or None where one of the lookups raises. */
  function CourseSlot(sv: Data, entityId: string): (r: Option<Slot>)
    ensures r.Some? <==>
      && SlotKey(entityId).Some? && "courses" in sv && sv["courses"].Table?
      && SlotKey(entityId).value in sv["courses"].slots
    ensures r.Some? ==> r.value == sv["courses"].slots[SlotKey(entityId).value]
  {
    match SlotKey(entityId)
    case None => None
    case Some(key) =>
      if "courses" in sv && sv["courses"].Table? && key in sv["courses"].slots
      then Some(sv["courses"].slots[key])
      else None
  }

  /** The keys of the summary attributes, in the order the dictionary display evaluates them. */
  const SummaryKeys: seq<string> := [
    "full_name", "gpa", "grade", "id", "last_updated", "meeting_date", "missing_assignments",
    "name", "reporting_period", "reporting_period_end", "reporting_period_start", "school", "url"
  ]

  /** The first of `keys` missing from the snapshot. */
  function FirstMissing(sv: Data, keys: seq<string>): (r: Option<string>)
    ensures r.None? <==> forall i :: 0 <= i < |keys| ==> keys[i] in sv
    ensures r.Some? ==> exists i :: 0 <= i < |keys| && keys[i] == r.value && r.value !in sv && forall j :: 0 <= j < i ==> keys[j] in sv
  {
    if keys == [] then None
    else if keys[0] !in sv then Some(keys[0])
    else
      FirstMissing(sv, keys[1..])
  }

  /**
   * The summary attributes (sensor.py lines 144-158): the thirteen listed
   * snapshot fields under their own names, or the KeyError of the first one
   * the snapshot lacks.
   */
  function SummaryAttributes(sv: Data): (r: Result<map<string, Field>>)
    ensures r.Ok? <==> forall i :: 0 <= i < |SummaryKeys| ==> SummaryKeys[i] in sv
    ensures r.Ok? ==> r.value.Keys == (set k | k in SummaryKeys) && forall k :: k in r.value ==> r.value[k] == sv[k]
    ensures r.Err? ==> r.error.key in SummaryKeys && r.error.key !in sv
    ensures r.Err? ==> FirstMissing(sv, SummaryKeys) == Some(r.error.key)
  {
    match FirstMissing(sv, SummaryKeys)
    case Some(k) => Err(KeyError(k))
    case None => Ok(map k | k in SummaryKeys :: sv[k])
  }

  /** A slot's attributes as snapshot fields. */
  function Lifted(slot: Slot): (m: map<string, Field>)
    ensures m.Keys == slot.Keys && forall k :: k in m ==> m[k] == Scalar(slot[k])
  {
    map k | k in slot :: Scalar(slot[k])
  }

  /** The name `setup_platform` gives a student's sensor: `studentvue_<id>` and the projection's suffix. */
  function SetupName(studentId: string, suffix: string): string {
    "studentvue_" + studentId + suffix
  }

  /** The entity id the constructor derives from that name. */
  function SetupEntityId(studentId: string, suffix: string): string {
    "sensor." + SetupName(studentId, suffix)
  }

  /** Where the underscores of a registered entity id are, for a numeric student id. */
  lemma SetupIdChars(studentId: string, suffix: string, i: int)
    requires |studentId| > 0 && AllDigits(studentId)
    requires 0 <= i < |SetupEntityId(studentId, suffix)|
    ensures var s := SetupEntityId(studentId, suffix);
      && (i < 17 ==> s[i] != '_')
      && (i == 17 ==> s[i] == '_')
      && (18 <= i < 18 + |studentId| ==> IsDigit(s[i]))
      && (18 + |studentId| <= i ==> s[i] == suffix[i - 18 - |studentId|])
  {
    var prefix := "sensor.studentvue_";
    assert SetupEntityId(studentId, suffix) == prefix + studentId + suffix;
    if i < 18 {
      assert SetupEntityId(studentId, suffix)[i] == prefix[i];
    } else if i < 18 + |studentId| {
      assert SetupEntityId(studentId, suffix)[i] == studentId[i - 18];
    }
  }

  /** In a registered entity id, every underscore is followed by a digit or by what follows it within the suffix. */
  lemma SetupIdFollowers(studentId: string, suffix: string, i: int)
    requires |studentId| > 0 && AllDigits(studentId)
    requires 0 <= i < |SetupEntityId(studentId, suffix)| - 1 && SetupEntityId(studentId, suffix)[i] == '_'
    ensures var s := SetupEntityId(studentId, suffix);
      || (i == 17 && IsDigit(s[i + 1]))
      || (18 + |studentId| <= i && suffix[i - 18 - |studentId|] == '_' && s[i + 1] == suffix[i + 1 - 18 - |studentId|])
  {
    SetupIdChars(studentId, suffix, i);
    SetupIdChars(studentId, suffix, i + 1);
  }

  /** The summary sensor `sensor.studentvue_<id>` shows the summary. */
  lemma SummaryIdDispatch(studentId: string)
    requires |studentId| > 0 && AllDigits(studentId)
    ensures KindOf(SetupEntityId(studentId, "")) == Summary
  {
    var s := SetupEntityId(studentId, "");
    forall i | 0 <= i < |s| - 1 && s[i] == '_' ensures IsDigit(s[i + 1]) {
      SetupIdFollowers(studentId, "", i);
    }
    NotContainedAfterUnderscore(s, "_period_");
    NotContainedAfterUnderscore(s, "_gpa");
    NotContainedAfterUnderscore(s, "_missing_assignments");
    NotContainedAfterUnderscore(s, "_grade");
  }

  /** The suffix shows up in the entity id right after the student id. */
  lemma SuffixOccurs(studentId: string, suffix: string, t: string)
    requires |t| <= |suffix| && suffix[..|t|] == t
    ensures Contains(SetupEntityId(studentId, suffix), t)
  {
    var s := SetupEntityId(studentId, suffix);
    assert s[18 + |studentId|..18 + |studentId| + |t|] == suffix[..|t|];
    assert OccursAt(s, t, 18 + |studentId|);
    ContainsAt(s, t);
  }

  /** The sensor `sensor.studentvue_<id>_gpa` shows the GPA. */
  lemma GpaIdDispatch(studentId: string)
    requires |studentId| > 0 && AllDigits(studentId)
    ensures KindOf(SetupEntityId(studentId, "_gpa")) == Gpa
  {
    var s := SetupEntityId(studentId, "_gpa");
    forall i | 0 <= i < |s| - 1 && s[i] == '_' ensures s[i + 1] != 'p' {
      SetupIdFollowers(studentId, "_gpa", i);
    }
    NotContainedAfterUnderscore(s, "_period_");
    SuffixOccurs(studentId, "_gpa", "_gpa");
  }

  /** The sensor `sensor.studentvue_<id>_missing_assignments` shows the missing-assignment count. */
  lemma MissingAssignmentsIdDispatch(studentId: string)
    requires |studentId| > 0 && AllDigits(studentId)
    ensures KindOf(SetupEntityId(studentId, "_missing_assignments")) == MissingAssignments
  {
    var s := SetupEntityId(studentId, "_missing_assignments");
    forall i | 0 <= i < |s| - 1 && s[i] == '_' ensures s[i + 1] != 'p' && s[i + 1] != 'g' {
      SetupIdFollowers(studentId, "_missing_assignments", i);
    }
    NotContainedAfterUnderscore(s, "_period_");
    NotContainedAfterUnderscore(s, "_gpa");
    SuffixOccurs(studentId, "_missing_assignments", "_missing_assignments");
  }

  /** `_gpa` does not occur in the grade sensor's id: its `_g` is followed by `r`. */
  lemma GpaNotInGradeId(studentId: string)
    requires |studentId| > 0 && AllDigits(studentId)
    ensures !Contains(SetupEntityId(studentId, "_grade"), "_gpa")
  {
    var s := SetupEntityId(studentId, "_grade");
    ContainsAt(s, "_gpa");
    forall i | OccursAt(s, "_gpa", i) ensures false {
      assert s[i] == '_' && s[i + 1] == 'g' && s[i + 2] == 'p' by {
        assert s[i..i + 4][0] == '_' && s[i..i + 4][1] == 'g' && s[i..i + 4][2] == 'p';
      }
      SetupIdChars(studentId, "_grade", i);
      if i == 17 {
        SetupIdChars(studentId, "_grade", i + 1);
      } else {
        SetupIdChars(studentId, "_grade", i + 2);
      }
    }
  }

  /** The sensor `sensor.studentvue_<id>_grade` shows the grade, although `_g` also begins `_gpa`. */
  lemma GradeIdDispatch(studentId: string)
    requires |studentId| > 0 && AllDigits(studentId)
    ensures KindOf(SetupEntityId(studentId, "_grade")) == Grade
  {
    var s := SetupEntityId(studentId, "_grade");
    forall i | 0 <= i < |s| - 1 && s[i] == '_' ensures s[i + 1] != 'p' && s[i + 1] != 'm' {
      SetupIdFollowers(studentId, "_grade", i);
    }
    NotContainedAfterUnderscore(s, "_period_");
    NotContainedAfterUnderscore(s, "_missing_assignments");
    GpaNotInGradeId(studentId);
    SuffixOccurs(studentId, "_grade", "_grade");
  }

  /**
   * The period sensor `sensor.studentvue_<id>_period_<i>_<side>` takes the
   * period branch and reads the slot named `period_<i>_<side>`.
   */
  lemma PeriodIdDispatch(studentId: string, i: int, side: Side)
    requires |studentId| > 0 && AllDigits(studentId)
    ensures KindOf(SetupEntityId(studentId, "_" + SlotName(Int(i), side))) == PeriodSlot
    ensures SlotKey(SetupEntityId(studentId, "_" + SlotName(Int(i), side))) == Some(SlotName(Int(i), side))
  {
    SlotNameParts(Int(i), side);
    PeriodKeyDispatch(studentId, SlotName(Int(i), side));
  }

  /** An id whose suffix is `_` and a key beginning `period_` takes the period branch and reads that key. */
  lemma PeriodKeyDispatch(studentId: string, key: string)
    requires |studentId| > 0 && AllDigits(studentId)
    requires |key| >= 7 && key[..7] == "period_"
    ensures Contains(SetupEntityId(studentId, "_" + key), "_period_")
    ensures SlotKey(SetupEntityId(studentId, "_" + key)) == Some(key)
  {
    assert ("_" + key)[..8] == "_period_";
    SuffixOccurs(studentId, "_" + key, "_period_");
    assert SetupEntityId(studentId, "_" + key) == "sensor.studentvue" + "_" + studentId + "_" + key;
    assert '_' !in studentId by {
      forall k | 0 <= k < |studentId| ensures studentId[k] != '_' {
        assert IsDigit(studentId[k]);
      }
    }
    SlotKeyOfJoined("sensor.studentvue", studentId, key);
  }


  /** After a successful refresh the summary shows the client's thirteen fields, the first name as `name`. */
  lemma SummaryAfterRefresh(prev: Data, c: Client, table: Slots)
    ensures SummaryAttributes(Refreshed(prev, c, table)).Ok?
    ensures var attrs := SummaryAttributes(Refreshed(prev, c, table)).value;
      && "full_name" in attrs && attrs["full_name"] == Scalar(c.fullName)
      && "gpa" in attrs && attrs["gpa"] == Scalar(c.gpa)
      && "grade" in attrs && attrs["grade"] == Scalar(c.grade)
      && "id" in attrs && attrs["id"] == Scalar(c.id)
      && "last_updated" in attrs && attrs["last_updated"] == Scalar(c.lastUpdated)
      && "meeting_date" in attrs && attrs["meeting_date"] == Scalar(c.meetingDate)
      && "missing_assignments" in attrs && attrs["missing_assignments"] == Scalar(c.missingAssignments)
      && "name" in attrs && attrs["name"] == Scalar(c.firstName)
      && "reporting_period" in attrs && attrs["reporting_period"] == Scalar(c.reportingPeriod)
      && "reporting_period_end" in attrs && attrs["reporting_period_end"] == Scalar(c.reportingPeriodEnd)
      && "reporting_period_start" in attrs && attrs["reporting_period_start"] == Scalar(c.reportingPeriodStart)
      && "school" in attrs && attrs["school"] == Scalar(c.schoolName)
      && "url" in attrs && attrs["url"] == Scalar(c.url)
  {
    var d := Refreshed(prev, c, table);
    RefreshedRenamed(prev, c, table);
    RefreshedFieldsFirst(prev, c, table);
    RefreshedFieldsSecond(prev, c, table);
    assert forall i :: 0 <= i < |SummaryKeys| ==> SummaryKeys[i] in d;
  }

  /**
   * After a successful refresh, the period sensor registered for slot
   * `period_<i>_<side>`, `i` in `1..8`, finds that slot of the new table.
   */
  lemma PeriodSensorFindsSlot(prev: Data, c: Client, studentId: string, i: int, side: Side)
    requires |studentId| > 0 && AllDigits(studentId)
    requires PeriodTable(c.courses, DefaultMaxCourses).Ok?
    requires 1 <= i <= DefaultMaxCourses
    ensures var table := PeriodTable(c.courses, DefaultMaxCourses).value;
      && SlotName(Int(i), side) in table
      && CourseSlot(Refreshed(prev, c, table), SetupEntityId(studentId, "_" + SlotName(Int(i), side)))
         == Some(table[SlotName(Int(i), side)])
  {
    PeriodIdDispatch(studentId, i, side);
    RefreshedRenamed(prev, c, PeriodTable(c.courses, DefaultMaxCourses).value);
    PeriodTableSlots(c.courses, DefaultMaxCourses);
    SlotNameInRange(i, side, DefaultMaxCourses);
  }

  /**
   * A period sensor whose slot no course was written to finds an empty
   * dictionary after a refresh: it has no `grade_letter`, so the sensor's
   * lookup raises and it keeps its state and name.
   */
  lemma EmptySlotSensor(prev: Data, c: Client, studentId: string, i: int, side: Side)
    requires |studentId| > 0 && AllDigits(studentId)
    requires AllPlaced(c.courses, DefaultMaxCourses)
    requires 1 <= i <= DefaultMaxCourses
    requires forall j :: 0 <= j < |c.courses| ==> Target(c.courses, j) != SlotName(Int(i), side)
    ensures PeriodTable(c.courses, DefaultMaxCourses).Ok?
    ensures var id := SetupEntityId(studentId, "_" + SlotName(Int(i), side));
      && KindOf(id) == PeriodSlot
      && CourseSlot(Refreshed(prev, c, PeriodTable(c.courses, DefaultMaxCourses).value), id) == Some(map[])
  {
    var key := SlotName(Int(i), side);
    SlotNameInRange(i, side, DefaultMaxCourses);
    UntargetedSlotEmpty(c.courses, DefaultMaxCourses, key);
    var table := PeriodTable(c.courses, DefaultMaxCourses).value;
    assert table[key] == map[];
    PeriodIdDispatch(studentId, i, side);
    PeriodSensorFindsSlot(prev, c, studentId, i, side);
  }

  class StudentVueSensor {
    const entityId: string
    /** `_name`, `_state` and `_device_state_attributes`. */
    var name: Field
    var state: Field
    var attributes: Option<map<string, Field>>

    /** `__init__` (sensor.py lines 75-82). */
    constructor (sensorName: string)
      ensures entityId == "sensor." + sensorName
      ensures name == Scalar(Text(sensorName)) && state == Scalar(Text("off")) && attributes == None
    {
      entityId := "sensor." + sensorName;
      name := Scalar(Text(sensorName));
      state := Scalar(Text("off"));
      attributes := None;
    }

    /**
     * `update` (sensor.py lines 104-158), given the snapshot it reads. A
     * period sensor swallows every failure and keeps whatever it had already
     * written; the other branches let a missing snapshot key raise.
     */
    method Update(sv: Data) returns (outcome: Outcome)
      modifies this
      ensures KindOf(entityId) == PeriodSlot ==>
        && outcome == Pass
        && match CourseSlot(sv, entityId)
           case Some(slot) =>
             if "grade_letter" in slot then
               && state == Scalar(slot["grade_letter"])
               && attributes == Some(Lifted(slot))
               && name == (if "course_title" in slot then Scalar(slot["course_title"]) else old(name))
             else
               state == old(state) && attributes == Some(map[]) && name == old(name)
           case None =>
             state == old(state) && attributes == Some(map[]) && name == old(name)
      ensures KindOf(entityId) == Gpa ==>
        && name == Scalar(Text("GPA")) && attributes == old(attributes)
        && if "gpa" in sv then outcome == Pass && state == sv["gpa"] else outcome == Fail(KeyError("gpa")) && state == old(state)
      ensures KindOf(entityId) == MissingAssignments ==>
        && name == Scalar(Text("Missing Assignments")) && attributes == old(attributes)
        && if "missing_assignments" in sv then outcome == Pass && state == sv["missing_assignments"]
           else outcome == Fail(KeyError("missing_assignments")) && state == old(state)
      ensures KindOf(entityId) == Grade ==>
        && name == Scalar(Text("Grade")) && attributes == old(attributes)
        && if "grade" in sv then outcome == Pass && state == sv["grade"] else outcome == Fail(KeyError("grade")) && state == old(state)
      ensures KindOf(entityId) == Summary ==>
        if "name" !in sv then
          outcome == Fail(KeyError("name")) && name == old(name) && state == old(state) && attributes == old(attributes)
        else if "meeting_day" !in sv then
          outcome == Fail(KeyError("meeting_day")) && name == sv["name"] && state == old(state) && attributes == old(attributes)
        else
          && name == sv["name"] && state == sv["meeting_day"]
          && match SummaryAttributes(sv)
             case Ok(m) => outcome == Pass && attributes == Some(m)
             case Err(e) => outcome == Fail(e) && attributes == old(attributes)
    {
      if Contains(entityId, "_period_") {
        attributes := Some(map[]);
        var coursePeriod := SlotKey(entityId);
        if coursePeriod.None? || "courses" !in sv || !sv["courses"].Table? || coursePeriod.value !in sv["courses"].slots {
          return Pass;
        }
        var slot := sv["courses"].slots[coursePeriod.value];
        if "grade_letter" !in slot {
          return Pass;
        }
        state := Scalar(slot["grade_letter"]);
        var keys := slot.Keys;
        while keys != {}
          invariant keys <= slot.Keys
          invariant attributes.Some? && attributes.value.Keys == slot.Keys - keys
          invariant forall k :: k in attributes.value ==> attributes.value[k] == Scalar(slot[k])
          invariant name == old(name) && state == Scalar(slot["grade_letter"])
          decreases keys
        {
          var k :| k in keys;
          attributes := Some(attributes.value[k := Scalar(slot[k])]);
          keys := keys - {k};
        }
        assert attributes.value == Lifted(slot);
        if "course_title" !in slot {
          return Pass;
        }
        name := Scalar(slot["course_title"]);
        return Pass;
      }

      if Contains(entityId, "_gpa") {
        name := Scalar(Text("GPA"));
        if "gpa" !in sv {
          return Fail(KeyError("gpa"));
        }
        state := sv["gpa"];
        return Pass;
      }

      if Contains(entityId, "_missing_assignments") {
        name := Scalar(Text("Missing Assignments"));
        if "missing_assignments" !in sv {
          return Fail(KeyError("missing_assignments"));
        }
        state := sv["missing_assignments"];
        return Pass;
      }

      if Contains(entityId, "_grade") {
        name := Scalar(Text("Grade"));
        if "grade" !in sv {
          return Fail(KeyError("grade"));
        }
        state := sv["grade"];
        return Pass;
      }

      if "name" !in sv {
        return Fail(KeyError("name"));
      }
      name := sv["name"];
      if "meeting_day" !in sv {
        return Fail(KeyError("meeting_day"));
      }
      state := sv["meeting_day"];
      var summary := SummaryAttributes(sv);
      if summary.Err? {
        return Fail(summary.error);
      }
      attributes := Some(summary.value);
      outcome := Pass;
    }
  }
}
