/** The database operations used for attendance: marking a user present,
    the attendance statistics over a window of days, a user's summary and
    the removal of users soft-deleted long enough ago.

    Dates are day numbers and times are seconds; today's date and the
    current time are parameters, read once per call. */
module DatabaseOperations {
  import opened Common
  import opened Database

  const SecondsPerDay: real := 86400.0

  // Attendance records

  /** Whether a row is the attendance of the user on the day. */
  predicate IsRecordOf(a: Attendance, userId: int, day: int)
  {
    a.userId == userId && a.date == day
  }

  /** The position `.first()` finds for the user and the day: the earliest
      matching row, or None when there is none. */
  function FirstRecord(rows: seq<Attendance>, userId: int, day: int): (k: Option<nat>)
    ensures k.Some? ==> k.value < |rows| && IsRecordOf(rows[k.value], userId, day)
    ensures k.Some? ==> forall j :: 0 <= j < k.value ==> !IsRecordOf(rows[j], userId, day)
    ensures k.None? ==> forall j :: 0 <= j < |rows| ==> !IsRecordOf(rows[j], userId, day)
    decreases |rows|
  {
    if rows == [] then None
    else
      match FirstRecord(rows[..|rows| - 1], userId, day)
      case Some(k) => Some(k)
      case None => if IsRecordOf(rows[|rows| - 1], userId, day) then Some(|rows| - 1) else None
  }

  /** The number of rows for the user and the day. */
  function RecordCount(rows: seq<Attendance>, userId: int, day: int): (n: nat)
    ensures n <= |rows|
    decreases |rows|
  {
    if rows == [] then 0
    else RecordCount(rows[..|rows| - 1], userId, day) + (if IsRecordOf(rows[|rows| - 1], userId, day) then 1 else 0)
  }

  /** No user has two rows for the same day. */
  predicate OnePerDay(rows: seq<Attendance>)
  {
    forall i, j :: 0 <= i < j < |rows| && rows[i].userId == rows[j].userId ==> rows[i].date != rows[j].date
  }

  /** The row mark_attendance creates when the user has none for the day:
      present, checked in now, with the column defaults otherwise. */
  function NewRecord(userId: int, day: int, now: real): (a: Attendance)
    ensures IsRecordOf(a, userId, day) && a.isPresent && a.checkIn == Some(now)
  {
    Attendance(userId, day, Some(now), None, true, 0)
  }

  /** An existing row marked again at `now`: a row not present becomes
      present with its check-in at `now`; a present row is checked out at
      `now` and, when it has a check-in, its duration becomes the whole
      minutes since then, cut toward zero. */
  function Remarked(a: Attendance, now: real): (r: Attendance)
    ensures r.userId == a.userId && r.date == a.date && r.isPresent
    ensures !a.isPresent ==> r == a.(isPresent := true, checkIn := Some(now))
    ensures a.isPresent ==> r.checkIn == a.checkIn && r.checkOut == Some(now)
    ensures a.isPresent && a.checkIn.None? ==> r == a.(checkOut := Some(now))
    ensures a.isPresent && a.checkIn.Some? && now >= a.checkIn.value ==>
      && r.durationMinutes >= 0
      && r.durationMinutes as real * 60.0 <= now - a.checkIn.value < (r.durationMinutes as real + 1.0) * 60.0
  {
    if !a.isPresent then a.(isPresent := true, checkIn := Some(now))
    else if a.checkIn.Some? then a.(checkOut := Some(now), durationMinutes := Trunc((now - a.checkIn.value) / 60.0))
    else a.(checkOut := Some(now))
  }

  /** The table and the returned row after mark_attendance. */
  function Marked(rows: seq<Attendance>, userId: int, day: int, now: real): (r: (seq<Attendance>, Attendance))
    ensures IsRecordOf(r.1, userId, day) && r.1.isPresent
    ensures |r.0| == |rows| + (if FirstRecord(rows, userId, day).None? then 1 else 0)
    ensures r.1 in r.0
  {
    match FirstRecord(rows, userId, day)
    case Some(k) =>
      var a := Remarked(rows[k], now);
      assert rows[k := a][k] == a;
      (rows[k := a], a)
    case None => (rows + [NewRecord(userId, day, now)], NewRecord(userId, day, now))
  }

  /** Replacing a row by one with the same user and day keeps every
      count. */
  lemma {:induction false} CountAfterReplace(rows: seq<Attendance>, k: nat, a: Attendance, userId: int, day: int)
    requires k < |rows| && a.userId == rows[k].userId && a.date == rows[k].date
    ensures RecordCount(rows[k := a], userId, day) == RecordCount(rows, userId, day)
    decreases |rows|
  {
    var n := |rows| - 1;
    assert rows[k := a][..n] == if k < n then rows[..n][k := a] else rows[..n];
    if k < n {
      CountAfterReplace(rows[..n], k, a, userId, day);
    }
  }

  /** No matching row means a count of zero, and a matching row a count of
      at least one. */
  lemma {:induction false} CountOfFirst(rows: seq<Attendance>, userId: int, day: int)
    ensures FirstRecord(rows, userId, day).None? <==> RecordCount(rows, userId, day) == 0
    decreases |rows|
  {
    if rows != [] {
      CountOfFirst(rows[..|rows| - 1], userId, day);
    }
  }

  /** mark_attendance never creates a second row for the user and the day:
      the count becomes one when there was none and stays as it was
      otherwise; the counts of other users and days do not change. */
  lemma MarkedCount(rows: seq<Attendance>, userId: int, day: int, now: real, u: int, d: int)
    ensures var after := RecordCount(Marked(rows, userId, day, now).0, u, d);
      var before := RecordCount(rows, u, d);
      after == if u == userId && d == day && before == 0 then 1 else before
  {
    CountOfFirst(rows, userId, day);
    match FirstRecord(rows, userId, day)
    case Some(k) =>
      CountAfterReplace(rows, k, Remarked(rows[k], now), u, d);
    case None =>
      var r := rows + [NewRecord(userId, day, now)];
      assert r[..|r| - 1] == rows;
  }

  /** mark_attendance keeps the table at one row per user and day. */
  lemma MarkedKeepsOnePerDay(rows: seq<Attendance>, userId: int, day: int, now: real)
    requires OnePerDay(rows)
    ensures OnePerDay(Marked(rows, userId, day, now).0)
  {
    var r := Marked(rows, userId, day, now).0;
    match FirstRecord(rows, userId, day)
    case Some(k) =>
      forall i, j | 0 <= i < j < |r| && r[i].userId == r[j].userId
        ensures r[i].date != r[j].date
      {
        assert r[i].userId == rows[i].userId && r[i].date == rows[i].date;
        assert r[j].userId == rows[j].userId && r[j].date == rows[j].date;
      }
    case None =>
      forall i, j | 0 <= i < j < |r| && r[i].userId == r[j].userId
        ensures r[i].date != r[j].date
      {
        if j == |rows| {
          assert !IsRecordOf(rows[i], userId, day);
        }
      }
  }

  // Attendance statistics

  /** get_user_attendance: the user's rows dated from `start` to `end`,
      both included, in table order. */
  function UserAttendance(rows: seq<Attendance>, userId: int, start: int, end: int): (r: seq<Attendance>)
    ensures |r| <= |rows|
    ensures forall a :: a in r <==> a in rows && a.userId == userId && start <= a.date <= end
    decreases |rows|
  {
    if rows == [] then []
    else
      var a := rows[|rows| - 1];
      UserAttendance(rows[..|rows| - 1], userId, start, end) + (if a.userId == userId && start <= a.date <= end then [a] else [])
  }

  /** The number of rows marked present. */
  function PresentCount(rows: seq<Attendance>): (n: nat)
    ensures n <= |rows|
    ensures n == |rows| <==> forall i :: 0 <= i < |rows| ==> rows[i].isPresent
    decreases |rows|
  {
    if rows == [] then 0
    else PresentCount(rows[..|rows| - 1]) + (if rows[|rows| - 1].isPresent then 1 else 0)
  }

  /** The sum of the durations. */
  function TotalDuration(rows: seq<Attendance>): int
    decreases |rows|
  {
    if rows == [] then 0 else TotalDuration(rows[..|rows| - 1]) + rows[|rows| - 1].durationMinutes
  }

  /** The dictionary get_attendance_stats returns. */
  datatype AttendanceStats = AttendanceStats(totalDays: nat, presentDays: nat, absentDays: int, attendanceRate: real,
                                             totalDurationMinutes: int, averageDurationMinutes: real)

  /** A share as a percentage: between 0 and 100, and 100 exactly when the
      part is the whole. */
  lemma Percentage(part: nat, whole: nat)
    requires part <= whole
    ensures whole > 0 ==> 0.0 <= part as real / whole as real * 100.0 <= 100.0
    ensures whole > 0 ==> (part as real / whole as real * 100.0 == 100.0 <==> part == whole)
  {
    if whole == 0 {
      return;
    }
    var q := part as real / whole as real;
    assert q * whole as real == part as real;
    if q == 1.0 {
      assert part as real == whole as real;
    }
  }

  /** The statistics of some attendance rows: the days that are not
      present are absent, the rate is the present share in percent (0 for
      no rows) and the average is over the present days (0 for none). */
  function Stats(records: seq<Attendance>): (s: AttendanceStats)
    ensures s.totalDays == |records| && s.presentDays == PresentCount(records) <= s.totalDays
    ensures s.absentDays == s.totalDays - s.presentDays >= 0
    ensures s.totalDurationMinutes == TotalDuration(records)
    ensures s.totalDays == 0 ==> s.attendanceRate == 0.0
    ensures 0.0 <= s.attendanceRate <= 100.0
    ensures s.attendanceRate == 100.0 <==> s.totalDays > 0 && forall i :: 0 <= i < |records| ==> records[i].isPresent
    ensures s.presentDays == 0 ==> s.averageDurationMinutes == 0.0
    ensures s.presentDays > 0 ==> s.averageDurationMinutes * s.presentDays as real == s.totalDurationMinutes as real
  {
    var total := |records|;
    var present := PresentCount(records);
    var duration := TotalDuration(records);
    Percentage(present, total);
    AttendanceStats(total, present, total - present,
                    if total > 0 then present as real / total as real * 100.0 else 0.0,
                    duration,
                    if present > 0 then duration as real / present as real else 0.0)
  }

  // Users

  /** The scores of the events that recorded one, in order. */
  function Scores(events: seq<Event>): (s: seq<real>)
    ensures s == [] <==> forall i :: 0 <= i < |events| ==> events[i].confidence.None?
    decreases |events|
  {
    if events == [] then []
    else
      var e := events[|events| - 1];
      var prior := Scores(events[..|events| - 1]);
      assert forall i :: 0 <= i < |events| - 1 ==> events[..|events| - 1][i] == events[i];
      prior + (if e.confidence.Some? then [e.confidence.value] else [])
  }

  /** Every score lies within any bounds all recorded scores lie within. */
  lemma {:induction false} ScoresWithin(events: seq<Event>, lo: real, hi: real)
    requires forall i :: 0 <= i < |events| && events[i].confidence.Some? ==> lo <= events[i].confidence.value <= hi
    ensures forall k :: 0 <= k < |Scores(events)| ==> lo <= Scores(events)[k] <= hi
    decreases |events|
  {
    if events != [] {
      var pre := events[..|events| - 1];
      assert forall i :: 0 <= i < |pre| ==> pre[i] == events[i];
      ScoresWithin(pre, lo, hi);
    }
  }

  /** get_user_avg_confidence: None when no event recorded a score,
      otherwise the mean of the scores. */
  function AverageConfidence(events: seq<Event>): (r: Option<real>)
    ensures r.None? <==> forall i :: 0 <= i < |events| ==> events[i].confidence.None?
  {
    var scores := Scores(events);
    if scores == [] then None else Some(Mean(scores))
  }

  /** The average confidence lies within any bounds all scores lie
      within. */
  lemma AverageConfidenceBounds(events: seq<Event>, lo: real, hi: real)
    requires forall i :: 0 <= i < |events| && events[i].confidence.Some? ==> lo <= events[i].confidence.value <= hi
    ensures AverageConfidence(events).Some? ==> lo <= AverageConfidence(events).value <= hi
  {
    var s := Scores(events);
    if s != [] {
      ScoresWithin(events, lo, hi);
      MeanBounds(s, lo, hi);
    }
  }

  /** The dictionary get_user_stats returns for a known user. */
  datatype UserStats = UserStats(name: string, createdAt: real, deletedAt: Option<real>, faceSamples: nat,
                                 recognitionEvents: nat, avgConfidence: Option<real>, attendanceRate: real,
                                 totalDuration: int)

  /** The result of cleanup_deleted_records. */
  datatype CleanupResult = CleanupResult(usersRemoved: nat, samplesRemoved: nat, eventsRemoved: nat)

  /** A user soft-deleted before the cutoff; a user that is not deleted
      never is. */
  predicate ExpiredUser(u: User, cutoff: real)
  {
    u.deletedAt.Some? && u.deletedAt.value < cutoff
  }

  /** The ids of the expired users. */
  function ExpiredSet(users: map<int, User>, cutoff: real): set<int>
  {
    set id | id in users && ExpiredUser(users[id], cutoff)
  }

  /** The query for expired users: their ids in the order the table lists
      them. */
  function ExpiredIds(order: seq<int>, users: map<int, User>, cutoff: real): (r: seq<int>)
    ensures forall i :: 0 <= i < |r| ==> r[i] in users && ExpiredUser(users[r[i]], cutoff)
    ensures Distinct(order) ==> Distinct(r)
  {
    var r := KeepIn(order, ExpiredSet(users, cutoff));
    assert forall i :: 0 <= i < |r| ==> r[i] in r;
    r
  }

  /** When the order lists every user, the query finds exactly the expired
      users, and removing them leaves the surviving ones. */
  lemma ExpiredIdsCover(order: seq<int>, users: map<int, User>, cutoff: real)
    requires forall id :: id in users ==> id in order
    ensures SeqToSet(ExpiredIds(order, users, cutoff)) == ExpiredSet(users, cutoff)
    ensures users - ExpiredSet(users, cutoff) == Surviving(users, cutoff)
  {
    var e := ExpiredSet(users, cutoff);
    var r := ExpiredIds(order, users, cutoff);
    assert r == KeepIn(order, e);
    forall x
      ensures x in SeqToSet(r) <==> x in e
    {
      if x in e {
        assert x in order;
      }
    }
  }

  /** The users that stay after the expired ones are removed. */
  function Surviving(users: map<int, User>, cutoff: real): (r: map<int, User>)
    ensures forall id :: id in r <==> id in users && !ExpiredUser(users[id], cutoff)
    ensures forall id :: id in r ==> r[id] == users[id]
  {
    map id | id in users && !ExpiredUser(users[id], cutoff) :: users[id]
  }

  /** The number of face samples of the listed users. */
  function SampleTotal(users: map<int, User>, ids: seq<int>): nat
    requires forall i :: 0 <= i < |ids| ==> ids[i] in users
    decreases |ids|
  {
    if ids == [] then 0 else SampleTotal(users, ids[..|ids| - 1]) + |users[ids[|ids| - 1]].samples|
  }

  /** The number of recognition events of the listed users. */
  function EventTotal(users: map<int, User>, ids: seq<int>): nat
    requires forall i :: 0 <= i < |ids| ==> ids[i] in users
    decreases |ids|
  {
    if ids == [] then 0 else EventTotal(users, ids[..|ids| - 1]) + |users[ids[|ids| - 1]].events|
  }

  /** A sequence without repetitions has as many elements as its set. */
  lemma {:induction false} DistinctCard(s: seq<int>)
    requires Distinct(s)
    ensures |SeqToSet(s)| == |s|
    decreases |s|
  {
    if s != [] {
      var pre := s[..|s| - 1];
      assert Distinct(pre) by {
        forall i, j | 0 <= i < j < |pre|
          ensures pre[i] != pre[j]
        {
          assert pre[i] == s[i] && pre[j] == s[j];
        }
      }
      DistinctCard(pre);
      assert SeqToSet(s) == SeqToSet(pre) + {s[|s| - 1]};
    }
  }

  /** One more id, for the loop of cleanup_deleted_records. */
  lemma CleanupPrefixStep(users: map<int, User>, ids: seq<int>, k: nat)
    requires k < |ids| && forall i :: 0 <= i < |ids| ==> ids[i] in users
    ensures SampleTotal(users, ids[..k + 1]) == SampleTotal(users, ids[..k]) + |users[ids[k]].samples|
    ensures EventTotal(users, ids[..k + 1]) == EventTotal(users, ids[..k]) + |users[ids[k]].events|
    ensures SeqToSet(ids[..k + 1]) == SeqToSet(ids[..k]) + {ids[k]}
  {
    assert ids[..k + 1][..k] == ids[..k];
  }

  /** The source's DatabaseOperations, over one session. */
  class DatabaseOperations {
    const session: Session

    constructor (session: Session)
      ensures this.session == session
    {
      this.session := session;
    }

    /** mark_attendance on day `today` at time `now`: the first row of the
        user for the day is marked again, or a present row is created when
        there is none; the session is committed either way. */
    method MarkAttendance(userId: int, today: int, now: real) returns (record: Attendance)
      modifies session`attendance, session`commits
      ensures (session.attendance, record) == Marked(old(session.attendance), userId, today, now)
      ensures session.commits == old(session.commits) + 1
    {
      var rows := session.attendance;
      var found := FirstRecord(rows, userId, today);
      if found.Some? {
        var k := found.value;
        record := rows[k];
        if !record.isPresent {
          record := record.(isPresent := true, checkIn := Some(now));
        } else {
          record := record.(checkOut := Some(now));
          if record.checkIn.Some? {
            var duration := (now - record.checkIn.value) / 60.0;
            record := record.(durationMinutes := Trunc(duration));
          }
        }
        session.attendance := rows[k := record];
      } else {
        record := Attendance(userId, today, Some(now), None, true, 0);
        session.attendance := rows + [record];
      }
      session.Commit();
    }

    /** get_attendance_stats over the `days` days before `today` and
        `today` itself. */
    function GetAttendanceStats(userId: int, today: int, days: int): (s: AttendanceStats)
      reads session
      ensures s.totalDays <= |session.attendance| && s.absentDays == s.totalDays - s.presentDays >= 0
      ensures 0.0 <= s.attendanceRate <= 100.0 && (s.totalDays == 0 ==> s.attendanceRate == 0.0)
      ensures s.presentDays == 0 ==> s.averageDurationMinutes == 0.0
    {
      Stats(UserAttendance(session.attendance, userId, today - days, today))
    }

    /** get_user_stats: None (the empty dictionary) for an id that names no
        user; otherwise the user's fields, its sample and event counts, its
        average confidence and its 30-day attendance rate and duration. */
    function GetUserStats(userId: int, today: int): (r: Option<UserStats>)
      reads session
      ensures r.None? <==> userId !in session.users
      ensures r.Some? ==>
        var u := session.users[userId];
        && r.value.name == u.name && r.value.faceSamples == |u.samples| && r.value.recognitionEvents == |u.events|
        && (r.value.avgConfidence.None? <==> forall i :: 0 <= i < |u.events| ==> u.events[i].confidence.None?)
        && 0.0 <= r.value.attendanceRate <= 100.0
    {
      if userId !in session.users then None
      else
        var u := session.users[userId];
        var stats := GetAttendanceStats(userId, today, 30);
        Some(UserStats(u.name, u.createdAt, u.deletedAt, |u.samples|, |u.events|, AverageConfidence(u.events),
                       stats.attendanceRate, stats.totalDurationMinutes))
    }

    /** The loop of cleanup_deleted_records: each listed user is counted,
        with its samples and events, and deleted. */
    method DeleteListed(ids: seq<int>) returns (result: CleanupResult)
      requires Distinct(ids) && forall i :: 0 <= i < |ids| ==> ids[i] in session.users
      modifies session`users
      ensures session.users == old(session.users) - SeqToSet(ids)
      ensures result == CleanupResult(|ids|, SampleTotal(old(session.users), ids), EventTotal(old(session.users), ids))
    {
      var users0 := session.users;
      result := CleanupResult(0, 0, 0);
      for i := 0 to |ids|
        invariant session.users == users0 - SeqToSet(ids[..i])
        invariant result == CleanupResult(i, SampleTotal(users0, ids[..i]), EventTotal(users0, ids[..i]))
      {
        CleanupPrefixStep(users0, ids, i);
        var user := users0[ids[i]];
        result := CleanupResult(result.usersRemoved + 1, result.samplesRemoved + |user.samples|,
                                result.eventsRemoved + |user.events|);
        session.users := session.users - {ids[i]};
      }
      assert ids[..|ids|] == ids;
    }

    /** cleanup_deleted_records at UTC time `now`: every user soft-deleted
        more than `days` days ago is removed together with its samples and
        events, which are counted; the session is committed only when a
        user was removed. */
    method CleanupDeletedRecords(now: real, days: int) returns (result: CleanupResult)
      requires session.Valid()
      modifies session`users, session`userOrder, session`commits
      ensures session.Valid()
      ensures var cutoff := now - days as real * SecondsPerDay;
        var expired := ExpiredIds(old(session.userOrder), old(session.users), cutoff);
        && result == CleanupResult(|expired|, SampleTotal(old(session.users), expired), EventTotal(old(session.users), expired))
        && result.usersRemoved == |ExpiredSet(old(session.users), cutoff)|
        && session.users == Surviving(old(session.users), cutoff)
        && session.userOrder == KeepIn(old(session.userOrder), session.users.Keys)
        && session.commits == old(session.commits) + (if result.usersRemoved > 0 then 1 else 0)
    {
      var cutoff := now - days as real * SecondsPerDay;
      var expired := ExpiredIds(session.userOrder, session.users, cutoff);
      ExpiredIdsCover(session.userOrder, session.users, cutoff);
      DistinctCard(expired);
      result := DeleteListed(expired);
      session.userOrder := KeepIn(session.userOrder, session.users.Keys);
      if result.usersRemoved > 0 {
        session.Commit();
      }
    }
  }
}
