/**
 * `StudentVueData`: the snapshot dictionary shared by every sensor of one
 * student, refreshed from the StudentVUE client.
 *
 * The client itself (login, scraping, parsing) is not part of this model:
 * `Update` receives the outcome of constructing it, either the values its
 * properties return or `None` when construction raised.
 */
module Snapshot {
  import opened Values
  import opened Bucketing

  /** A value of the snapshot: a scalar, or the slot table stored under `courses`. */
  datatype Field = Scalar(value: Value) | Table(slots: Slots)

  type Data = map<string, Field>

  /** The properties of a logged-in StudentVUE client that `update` reads. */
  datatype Client = Client(
    courseCount: Value,
    courses: seq<Course>,
    fullName: Value,
    gpa: Value,
    grade: Value,
    id: Value,
    lastUpdated: Value,
    meetingDate: Value,
    meetingDay: Value,
    missingAssignments: Value,
    firstName: Value,
    reportingPeriod: Value,
    reportingPeriodEnd: Value,
    reportingPeriodStart: Value,
    schoolName: Value,
    url: Value)

  /** The keys a successful refresh writes. */
  const RefreshedKeys: set<string> := {
    "course_count", "courses", "full_name", "gpa", "grade", "id", "last_updated", "meeting_date",
    "meeting_day", "missing_assignments", "name", "reporting_period", "reporting_period_end",
    "reporting_period_start", "school", "url"
  }

  /**
   * The snapshot after a successful refresh: the client's properties written
   * one key at a time over the previous snapshot, in the order of lines
   * 208-223.
   */
  function Refreshed(prev: Data, c: Client, table: Slots): (d: Data)
    ensures "courses" in d && d["courses"] == Table(table)
  {
    prev["course_count" := Scalar(c.courseCount)]
        ["courses" := Table(table)]
        ["full_name" := Scalar(c.fullName)]
        ["gpa" := Scalar(c.gpa)]
        ["grade" := Scalar(c.grade)]
        ["id" := Scalar(c.id)]
        ["last_updated" := Scalar(c.lastUpdated)]
        ["meeting_date" := Scalar(c.meetingDate)]
        ["meeting_day" := Scalar(c.meetingDay)]
        ["missing_assignments" := Scalar(c.missingAssignments)]
        ["name" := Scalar(c.firstName)]
        ["reporting_period" := Scalar(c.reportingPeriod)]
        ["reporting_period_end" := Scalar(c.reportingPeriodEnd)]
        ["reporting_period_start" := Scalar(c.reportingPeriodStart)]
        ["school" := Scalar(c.schoolName)]
        ["url" := Scalar(c.url)]
  }

  /** A refresh adds exactly the refreshed keys to the snapshot. */
  lemma RefreshedDomain(prev: Data, c: Client, table: Slots)
    ensures Refreshed(prev, c, table).Keys == prev.Keys + RefreshedKeys
  {
  }

  /** Keys a refresh does not write keep their old values. */
  lemma RefreshedKeepsOthers(prev: Data, c: Client, table: Slots, k: string)
    requires k in prev && k !in RefreshedKeys
    ensures k in Refreshed(prev, c, table) && Refreshed(prev, c, table)[k] == prev[k]
  {
  }

  /** The slot table, the student's first name as `name` and the school name as `school`. */
  lemma RefreshedRenamed(prev: Data, c: Client, table: Slots)
    ensures var d := Refreshed(prev, c, table);
      && "courses" in d && d["courses"] == Table(table)
      && "name" in d && d["name"] == Scalar(c.firstName)
      && "school" in d && d["school"] == Scalar(c.schoolName)
  {
  }

  /** The first half of the keys, in writing order, hold the client property of the same name. */
  lemma RefreshedFieldsFirst(prev: Data, c: Client, table: Slots)
    ensures var d := Refreshed(prev, c, table);
      && "course_count" in d && d["course_count"] == Scalar(c.courseCount)
      && "full_name" in d && d["full_name"] == Scalar(c.fullName)
      && "gpa" in d && d["gpa"] == Scalar(c.gpa)
      && "grade" in d && d["grade"] == Scalar(c.grade)
      && "id" in d && d["id"] == Scalar(c.id)
      && "last_updated" in d && d["last_updated"] == Scalar(c.lastUpdated)
  {
  }

  /** The second half of the keys hold the client property of the same name. */
  lemma RefreshedFieldsSecond(prev: Data, c: Client, table: Slots)
    ensures var d := Refreshed(prev, c, table);
      && "meeting_date" in d && d["meeting_date"] == Scalar(c.meetingDate)
      && "meeting_day" in d && d["meeting_day"] == Scalar(c.meetingDay)
      && "missing_assignments" in d && d["missing_assignments"] == Scalar(c.missingAssignments)
      && "reporting_period" in d && d["reporting_period"] == Scalar(c.reportingPeriod)
      && "reporting_period_end" in d && d["reporting_period_end"] == Scalar(c.reportingPeriodEnd)
      && "reporting_period_start" in d && d["reporting_period_start"] == Scalar(c.reportingPeriodStart)
      && "url" in d && d["url"] == Scalar(c.url)
  {
  }

  /** Refreshing twice from the same client leaves the snapshot as one refresh does. */
  lemma RefreshIdempotent(prev: Data, c: Client, table: Slots)
    ensures Refreshed(Refreshed(prev, c, table), c, table) == Refreshed(prev, c, table)
  {
    var once := Refreshed(prev, c, table);
    var twice := Refreshed(once, c, table);
    RefreshedDomain(prev, c, table);
    RefreshedDomain(once, c, table);
    RefreshedRenamed(prev, c, table);
    RefreshedRenamed(once, c, table);
    RefreshedFieldsFirst(prev, c, table);
    RefreshedFieldsFirst(once, c, table);
    RefreshedFieldsSecond(prev, c, table);
    RefreshedFieldsSecond(once, c, table);
    forall k | k in twice ensures twice[k] == once[k] {
      if k !in RefreshedKeys {
        RefreshedKeepsOthers(once, c, table, k);
      }
    }
  }


  class StudentVueData {
    /** `_data`, exposed to the sensors as `sv_data`. */
    var data: Data

    constructor ()
      ensures data == map[]
    {
      data := map[];
    }

    /**
     * `update` (sensor.py lines 201-223). When the client cannot be
     * constructed the snapshot is left exactly as it was. Otherwise the keys
     * are written one at a time; if bucketing the courses raises, only
     * `course_count` has been overwritten and the KeyError propagates.
     */
    method Update(login: Option<Client>) returns (outcome: Outcome)
      requires login.Some? ==> DistinctTitles(login.value.courses)
      modifies this
      ensures login.None? ==> outcome == Pass && data == old(data)
      ensures login.Some? ==>
        match PeriodTable(login.value.courses, DefaultMaxCourses)
        case Err(e) => outcome == Fail(e) && data == old(data)["course_count" := Scalar(login.value.courseCount)]
        case Ok(table) => outcome == Pass && data == Refreshed(old(data), login.value, table)
    {
      if login.None? {
        return Pass;
      }
      var sv := login.value;
      data := data["course_count" := Scalar(sv.courseCount)];
      var courses := CoursesByPeriod(sv.courses, DefaultMaxCourses);
      if courses.Err? {
        return Fail(courses.error);
      }
      data := data["courses" := Table(courses.value)];
      data := data["full_name" := Scalar(sv.fullName)];
      data := data["gpa" := Scalar(sv.gpa)];
      data := data["grade" := Scalar(sv.grade)];
      data := data["id" := Scalar(sv.id)];
      data := data["last_updated" := Scalar(sv.lastUpdated)];
      data := data["meeting_date" := Scalar(sv.meetingDate)];
      data := data["meeting_day" := Scalar(sv.meetingDay)];
      data := data["missing_assignments" := Scalar(sv.missingAssignments)];
      data := data["name" := Scalar(sv.firstName)];
      data := data["reporting_period" := Scalar(sv.reportingPeriod)];
      data := data["reporting_period_end" := Scalar(sv.reportingPeriodEnd)];
      data := data["reporting_period_start" := Scalar(sv.reportingPeriodStart)];
      data := data["school" := Scalar(sv.schoolName)];
      data := data["url" := Scalar(sv.url)];
      outcome := Pass;
    }
  }
}
