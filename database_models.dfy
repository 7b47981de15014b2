/** The database records: users with their face samples and recognition
    events, attendance rows and the audit log of deletions and
    restorations, all held by one session.

    Rows are values; the session holds them in tables and an operation
    replaces the rows it changes. A user's face samples and recognition
    events are kept inside the user row, as the cascading relationships
    of the source tie them to it. Timestamps are seconds on one clock
    and dates are day numbers. */
module Database {
  import opened Common

  /** A stored face image of a user. `archivedPath` is where the image was
      moved when the user was archived. */
  datatype Sample = Sample(id: int, userId: int, imagePath: string, createdAt: real,
                           deletedAt: Option<real>, archivedPath: Option<string>)
  {
    /** soft_delete: the sample is marked deleted at `now`; nothing else
        changes. */
    function SoftDeleted(now: real): (r: Sample)
      ensures r.deletedAt == Some(now)
      ensures r.(deletedAt := deletedAt) == this
    {
      this.(deletedAt := Some(now))
    }

    /** restore: the deletion mark is cleared; nothing else changes. */
    function Restored(): (r: Sample)
      ensures r.deletedAt.None?
      ensures r.(deletedAt := deletedAt) == this
    {
      this.(deletedAt := None)
    }
  }

  /** A recognition of a user at a place, with its score when one was
      recorded. */
  datatype Event = Event(id: int, userId: int, placeId: int, timestamp: real,
                         imagePath: string, confidence: Option<real>)

  /** A registered person. */
  datatype User = User(id: int, name: string, createdAt: real, deletedAt: Option<real>,
                       samples: seq<Sample>, events: seq<Event>)
  {
    /** soft_delete on the user row alone. */
    function SoftDeleted(now: real): (r: User)
      ensures r.deletedAt == Some(now)
      ensures r.(deletedAt := deletedAt) == this
    {
      this.(deletedAt := Some(now))
    }

    /** restore on the user row alone. */
    function Restored(): (r: User)
      ensures r.deletedAt.None?
      ensures r.(deletedAt := deletedAt) == this
    {
      this.(deletedAt := None)
    }
  }

  /** Restoring undoes a soft delete, for a user and for a sample. */
  lemma SoftDeleteThenRestore(u: User, s: Sample, now: real)
    ensures u.deletedAt.None? ==> u.SoftDeleted(now).Restored() == u
    ensures s.deletedAt.None? ==> s.SoftDeleted(now).Restored() == s
  {
  }

  /** User.archive: the user and every one of its samples are marked
      deleted at `now`; the samples keep their order and every other
      field. */
  function Archived(u: User, now: real): (a: User)
    ensures a.deletedAt == Some(now) && a.id == u.id
    ensures |a.samples| == |u.samples|
    ensures forall i :: 0 <= i < |u.samples| ==> a.samples[i] == u.samples[i].SoftDeleted(now)
    ensures a.(deletedAt := u.deletedAt, samples := u.samples) == u
  {
    u.(deletedAt := Some(now), samples := seq(|u.samples|, i requires 0 <= i < |u.samples| => u.samples[i].SoftDeleted(now)))
  }

  /** User.archive as the source runs it: the user first, then the samples
      one by one. */
  method Archive(u: User, now: real) returns (a: User)
    ensures a == Archived(u, now)
  {
    a := u.SoftDeleted(now);
    var samples := u.samples;
    for i := 0 to |samples|
      invariant |samples| == |u.samples|
      invariant forall k :: 0 <= k < i ==> samples[k] == u.samples[k].SoftDeleted(now)
      invariant forall k :: i <= k < |samples| ==> samples[k] == u.samples[k]
    {
      samples := samples[i := samples[i].SoftDeleted(now)];
    }
    a := a.(samples := samples);
  }

  /** One day's attendance of a user. */
  datatype Attendance = Attendance(userId: int, date: int, checkIn: Option<real>, checkOut: Option<real>,
                                   isPresent: bool, durationMinutes: int)

  /** What an audit entry records beside the action. */
  datatype AuditDetails =
    | DeletionDetails(archivePath: Option<string>, sampleCount: nat, archivedAt: real)
    | RestorationDetails(restoredAt: real, sampleCount: nat)

  /** A row of the deletion audit log; `action` is "delete" or "restore". */
  datatype AuditEntry = AuditEntry(userId: int, action: string, details: Option<AuditDetails>)

  /** A database session: the tables it sees, including changes not yet
      committed, and the number of commits made through it. `userOrder` is
      the order in which the users table lists its rows. */
  class Session {
    var users: map<int, User>
    var userOrder: seq<int>
    var attendance: seq<Attendance>
    var auditLog: seq<AuditEntry>
    var commits: nat

    /** Every user row is listed once and is stored under its own id. */
    ghost predicate Valid()
      reads this
    {
      && Distinct(userOrder)
      && (forall id :: id in userOrder <==> id in users)
      && (forall id :: id in users ==> users[id].id == id)
    }

    /** A session over the given tables. */
    constructor (users: map<int, User>, userOrder: seq<int>, attendance: seq<Attendance>)
      requires Distinct(userOrder) && (forall id :: id in userOrder <==> id in users)
      requires forall id :: id in users ==> users[id].id == id
      ensures Valid()
      ensures this.users == users && this.userOrder == userOrder && this.attendance == attendance
      ensures auditLog == [] && commits == 0
    {
      this.users := users;
      this.userOrder := userOrder;
      this.attendance := attendance;
      auditLog := [];
      commits := 0;
    }

    /** DeleteAuditLog.log_deletion: exactly one "delete" entry is added. */
    method LogDeletion(userId: int, details: Option<AuditDetails>)
      modifies this`auditLog
      ensures auditLog == old(auditLog) + [AuditEntry(userId, "delete", details)]
    {
      auditLog := auditLog + [AuditEntry(userId, "delete", details)];
    }

    /** DeleteAuditLog.log_restoration: exactly one "restore" entry is
        added. */
    method LogRestoration(userId: int, details: Option<AuditDetails>)
      modifies this`auditLog
      ensures auditLog == old(auditLog) + [AuditEntry(userId, "restore", details)]
    {
      auditLog := auditLog + [AuditEntry(userId, "restore", details)];
    }

    /** commit: the pending changes become durable. */
    method Commit()
      modifies this`commits
      ensures commits == old(commits) + 1
    {
      commits := commits + 1;
    }
  }
}
