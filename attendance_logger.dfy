/** The attendance logger: turns each cycle's recognised (face id, name) pairs
    into at-desk / away membership and rows of the attendance CSV file.
    The CSV file is modelled as its list of lines, each with its newline. */
module Attendance {
  import opened Common
  import opened Presence

  const LogHeader: string := "Name,Date,Arrival Time,Departure Time\n"
  const UnknownName: string := "Unknown"

  // ---------------------------------------------------------------------------
  // At-desk / away membership

  /** The two membership sets, people_at_desk and people_away. */
  datatype Desk = Desk(atDesk: set<string>, away: set<string>)

  predicate Disjoint(d: Desk)
  {
    d.atDesk !! d.away
  }

  function Everyone(d: Desk): set<string>
  {
    d.atDesk + d.away
  }

  /** An arrival moves a name from away to at-desk; a name that is not away
      is left where it is. */
  function Arrive(d: Desk, name: string): (r: Desk)
    ensures Everyone(r) == Everyone(d)
    ensures Disjoint(d) ==> Disjoint(r)
    ensures name in d.away ==> name in r.atDesk && name !in r.away
    ensures name !in d.away ==> r == d
  {
    if name in d.away then Desk(d.atDesk + {name}, d.away - {name}) else d
  }

  /** A departure moves a name from at-desk to away; a name that is not at the
      desk is left where it is. */
  function Depart(d: Desk, name: string): (r: Desk)
    ensures Everyone(r) == Everyone(d)
    ensures Disjoint(d) ==> Disjoint(r)
    ensures name in d.atDesk ==> name in r.away && name !in r.atDesk
    ensures name !in d.atDesk ==> r == d
  {
    if name in d.atDesk then Desk(d.atDesk - {name}, d.away + {name}) else d
  }

  /** The only two ways the logger changes membership. */
  datatype Move = ArriveMove(name: string) | DepartMove(name: string)

  function ApplyMoves(d: Desk, moves: seq<Move>): Desk
  {
    if moves == [] then d
    else
      var prev := ApplyMoves(d, moves[..|moves| - 1]);
      match moves[|moves| - 1]
      case ArriveMove(n) => Arrive(prev, n)
      case DepartMove(n) => Depart(prev, n)
  }

  /** Any run of arrivals and departures keeps the two sets disjoint and never
      changes their union. */
  lemma {:induction false} MovesKeepEveryone(d: Desk, moves: seq<Move>)
    ensures Everyone(ApplyMoves(d, moves)) == Everyone(d)
    ensures Disjoint(d) ==> Disjoint(ApplyMoves(d, moves))
  {
    if moves != [] {
      MovesKeepEveryone(d, moves[..|moves| - 1]);
    }
  }

  /** Both sets start empty and names only move between them, so nobody is
      ever at the desk or away. */
  lemma {:induction false} NobodyEverPresent(moves: seq<Move>)
    ensures ApplyMoves(Desk({}, {}), moves) == Desk({}, {})
  {
    MovesKeepEveryone(Desk({}, {}), moves);
  }

  // ---------------------------------------------------------------------------
  // The attendance CSV file as a list of lines

  /** The row appended on arrival: name, date, arrival time, empty departure. */
  function ArrivalEntry(name: string, date: string, time: string): string
  {
    name + "," + date + "," + time + "," + "\n"
  }

  /** A row of `name` still waiting for its departure time. The source tests
      the raw line with startswith, so a name also matches the rows of every
      longer name it is a prefix of. */
  predicate IsOpenEntry(line: string, name: string)
  {
    StartsWith(line, name) && EndsWith(Strip(line), ",")
  }

  /** Index of the first open row of `name` at or after line `k`, if any. */
  function FirstOpenFrom(lines: seq<string>, name: string, k: nat): (r: Option<nat>)
    requires k <= |lines|
    ensures r.Some? ==> k <= r.value < |lines| && IsOpenEntry(lines[r.value], name)
    ensures r.Some? ==> forall j :: k <= j < r.value ==> !IsOpenEntry(lines[j], name)
    ensures r.None? ==> forall j :: k <= j < |lines| ==> !IsOpenEntry(lines[j], name)
    decreases |lines| - k
  {
    if k == |lines| then None
    else if IsOpenEntry(lines[k], name) then Some(k)
    else FirstOpenFrom(lines, name, k + 1)
  }

  /** Index of the first open row of `name`, if any. */
  function FirstOpenEntry(lines: seq<string>, name: string): (r: Option<nat>)
    ensures r.Some? ==> r.value < |lines| && IsOpenEntry(lines[r.value], name)
    ensures r.Some? ==> forall j :: 0 <= j < r.value ==> !IsOpenEntry(lines[j], name)
    ensures r.None? ==> forall j :: 0 <= j < |lines| ==> !IsOpenEntry(lines[j], name)
  {
    FirstOpenFrom(lines, name, 0)
  }

  /** The first open row is the open row with no open row before it. */
  lemma FirstOpenEntryAt(lines: seq<string>, name: string, i: nat)
    requires i <= |lines|
    requires forall j :: 0 <= j < i ==> !IsOpenEntry(lines[j], name)
    ensures i < |lines| && IsOpenEntry(lines[i], name) ==> FirstOpenEntry(lines, name) == Some(i)
    ensures i == |lines| ==> FirstOpenEntry(lines, name) == None
  {
  }

  /** The departure rewrite: the first open row of `name` gets `time` appended
      after its stripped text; without an open row the file is unchanged. */
  function CloseEntry(lines: seq<string>, name: string, time: string): seq<string>
  {
    match FirstOpenEntry(lines, name)
    case None => lines
    case Some(i) => lines[i := Strip(lines[i]) + time + "\n"]
  }

  /** A departure touches at most one line, the first open row of the name,
      and leaves the number of lines unchanged. */
  lemma CloseEntryTouchesOneLine(lines: seq<string>, name: string, time: string)
    ensures |CloseEntry(lines, name, time)| == |lines|
    ensures FirstOpenEntry(lines, name).None? ==> CloseEntry(lines, name, time) == lines
    ensures FirstOpenEntry(lines, name).Some? ==>
      var i := FirstOpenEntry(lines, name).value;
      && IsOpenEntry(lines[i], name)
      && (forall j :: 0 <= j < |lines| && j != i ==> CloseEntry(lines, name, time)[j] == lines[j])
      && CloseEntry(lines, name, time)[i] == Strip(lines[i]) + time + "\n"
  {
  }

  /** Every arrival row is open for its own name. */
  lemma ArrivalEntryIsOpen(name: string, date: string, time: string)
    ensures IsOpenEntry(ArrivalEntry(name, date, time), name)
    ensures Strip(ArrivalEntry(name, date, time)) == TrimLeft(name + "," + date + "," + time + ",")
  {
    var body := name + "," + date + "," + time + ",";
    var entry := ArrivalEntry(name, date, time);
    assert entry == body + "\n";
    StripLine(body);
    var t := TrimLeft(body);
    assert t[|t| - 1..] == [','];
    assert StartsWith(entry, name) by {
      var e1 := name + ",";
      var e2 := e1 + date;
      var e3 := e2 + ",";
      var e4 := e3 + time;
      StartsWithConcat(name, ",");
      StartsWithConcat(e1, date);
      StartsWithConcat(e2, ",");
      StartsWithConcat(e3, time);
      StartsWithConcat(e4, ",");
      StartsWithConcat(body, "\n");
      StartsWithTrans(e2, e1, name);
      StartsWithTrans(e3, e2, name);
      StartsWithTrans(e4, e3, name);
      StartsWithTrans(body, e4, name);
      StartsWithTrans(entry, body, name);
    }
  }

  /** A time stamp ending in a character that is neither blank nor a comma, as
      strftime("%H:%M:%S") produces. */
  predicate IsStamp(time: string)
  {
    time != [] && !IsSpace(time[|time| - 1]) && time[|time| - 1] != ','
  }

  /** Once a row has received its departure time it is no longer open, so a
      row is closed at most once. */
  lemma ClosedRowIsNotOpen(line: string, name: string, time: string)
    requires IsStamp(time)
    ensures !IsOpenEntry(Strip(line) + time + "\n", name)
  {
    var u := Strip(line) + time;
    StripLine(u);
  }

  /** Arrival then departure of a name with no open row yet: the arrival row
      becomes the complete four-column row and nothing else changes. */
  lemma ArrivalThenDeparture(lines: seq<string>, name: string, date: string, arrival: string, departure: string)
    requires FirstOpenEntry(lines, name).None?
    requires name != [] && !IsSpace(name[0])
    ensures CloseEntry(lines + [ArrivalEntry(name, date, arrival)], name, departure)
         == lines + [name + "," + date + "," + arrival + "," + departure + "\n"]
  {
    var entry := ArrivalEntry(name, date, arrival);
    var all := lines + [entry];
    var body := name + "," + date + "," + arrival + ",";
    ArrivalEntryIsOpen(name, date, arrival);
    assert all[|lines|] == entry;
    assert forall j :: 0 <= j < |lines| ==> all[j] == lines[j];
    FirstOpenEntryAt(all, name, |lines|);
    assert body[0] == name[0];
    TrimLeftKeeps(body);
    assert CloseEntry(all, name, departure) == all[|lines| := body + departure + "\n"];
  }

  /** startswith makes an arrival row of a longer name open for every prefix
      of that name. */
  lemma PrefixNameRowIsOpen(name: string, rest: string, date: string, arrival: string)
    ensures IsOpenEntry(ArrivalEntry(name + rest, date, arrival), name)
  {
    ArrivalEntryIsOpen(name + rest, date, arrival);
    StartsWithShorter(ArrivalEntry(name + rest, date, arrival), name, rest);
  }

  /** So a departure of `name` closes the open row of any longer name that
      begins with it ("Al" closes the row of "Alice"). */
  lemma PrefixNameClosesOtherRow(name: string, rest: string, date: string, arrival: string, departure: string)
    requires IsStamp(departure)
    ensures FirstOpenEntry([ArrivalEntry(name + rest, date, arrival)], name) == Some(0)
    ensures CloseEntry([ArrivalEntry(name + rest, date, arrival)], name, departure)
         != [ArrivalEntry(name + rest, date, arrival)]
  {
    var entry := ArrivalEntry(name + rest, date, arrival);
    PrefixNameRowIsOpen(name, rest, date, arrival);
    FirstOpenEntryAt([entry], name, 0);
    ClosedRowIsNotOpen(entry, name, departure);
  }

  // ---------------------------------------------------------------------------
  // update_presence as a function of the logger's state

  /** face_names, name_faces and the insertion order of name_faces' keys. */
  datatype Names = Names(faceNames: map<string, string>, nameFaces: map<string, string>, order: seq<string>)

  /** `order` lists the keys of name_faces once each, and every name in
      face_names is a key of name_faces. */
  predicate OrderValid(nm: Names)
  {
    && Distinct(nm.order) && SeqToSet(nm.order) == nm.nameFaces.Keys
    && forall f | f in nm.faceNames :: nm.faceNames[f] in nm.nameFaces
  }

  /** The mapping step of the first loop: a face whose name is new or changed
      is mapped to it in both directions. */
  function Associate(nm: Names, face: string, name: string): (r: Names)
    ensures OrderValid(nm) ==> OrderValid(r) && name in r.nameFaces
    ensures r.faceNames == nm.faceNames[face := name]
  {
    if face !in nm.faceNames || nm.faceNames[face] != name then
      Names(nm.faceNames[face := name], nm.nameFaces[name := face],
            if name in nm.nameFaces then nm.order else nm.order + [name])
    else nm
  }

  /** Everything update_presence reads and writes, the verifier's entries
      included. */
  datatype LoggerState = LoggerState(
    desk: Desk,
    lastSeen: map<string, real>,
    names: Names,
    log: seq<string>,
    status: map<string, PresenceStatus>)

  /** The recognised pairs minus those named "Unknown", in order. */
  function Known(recognized: seq<(string, string)>): (r: seq<(string, string)>)
    ensures forall p :: p in r <==> p in recognized && p.1 != UnknownName
    ensures |r| <= |recognized|
  {
    if recognized == [] then []
    else
      var prev := Known(recognized[..|recognized| - 1]);
      var p := recognized[|recognized| - 1];
      if p.1 != UnknownName then prev + [p] else prev
  }

  /** Face ids are the keys of the source's dict: no id occurs twice. */
  predicate DistinctFaces(pairs: seq<(string, string)>)
  {
    forall i, j :: 0 <= i < j < |pairs| ==> pairs[i].0 != pairs[j].0
  }

  function FaceIds(pairs: seq<(string, string)>): set<string>
  {
    set p | p in pairs :: p.0
  }

  predicate IsVerified(status: map<string, PresenceStatus>, face: string)
  {
    face in status && status[face].isVerified
  }

  /** The first loop: update_face on every pair and the face/name mapping. */
  function FirstLoop(s: LoggerState, pairs: seq<(string, string)>, now: real, verificationTime: real): (r: LoggerState)
    ensures r.desk == s.desk && r.lastSeen == s.lastSeen && r.log == s.log
  {
    if pairs == [] then s
    else
      var prev := FirstLoop(s, pairs[..|pairs| - 1], now, verificationTime);
      var (face, name) := pairs[|pairs| - 1];
      prev.(status := prev.status[face := Observed(Lookup(prev.status, face), now, verificationTime)],
            names := Associate(prev.names, face, name))
  }

  /** The second loop: a verified face refreshes its name's last-seen time, and
      a name that is away arrives and gets an arrival row. */
  function ArrivalLoop(s: LoggerState, pairs: seq<(string, string)>, now: real, date: string, time: string): (r: LoggerState)
    ensures r.names == s.names && r.status == s.status
  {
    if pairs == [] then s
    else
      var prev := ArrivalLoop(s, pairs[..|pairs| - 1], now, date, time);
      var (face, name) := pairs[|pairs| - 1];
      if !IsVerified(prev.status, face) then prev
      else if name in prev.desk.away then
        prev.(lastSeen := prev.lastSeen[name := now],
              desk := Arrive(prev.desk, name),
              log := prev.log + [ArrivalEntry(name, date, time)])
      else prev.(lastSeen := prev.lastSeen[name := now])
  }

  /** last_seen_times.get(name, 0). */
  function LastSeen(lastSeen: map<string, real>, name: string): real
  {
    if name in lastSeen then lastSeen[name] else 0.0
  }

  /** reset_verification as a map update. */
  function ResetStatus(status: map<string, PresenceStatus>, face: string, clock: real): map<string, PresenceStatus>
  {
    if face in status then status[face := PresenceStatus(clock, false, 0.0)] else status
  }

  /** Whether the third loop lets `name`, mapped to `face`, depart. */
  predicate DepartureDue(s: LoggerState, name: string, face: string, ids: set<string>, now: real, awayThreshold: real)
  {
    face !in ids && now - LastSeen(s.lastSeen, name) > awayThreshold && name in s.desk.atDesk
  }

  /** The third loop over name_faces in insertion order: an absent face whose
      name has not been seen for longer than the threshold departs, closing
      its row and resetting the face's verification. */
  function DepartureLoop(s: LoggerState, order: seq<string>, nameFaces: map<string, string>,
                         ids: set<string>, now: real, awayThreshold: real, time: string, clock: real): (r: LoggerState)
    requires forall i :: 0 <= i < |order| ==> order[i] in nameFaces
    ensures r.names == s.names && r.lastSeen == s.lastSeen
  {
    if order == [] then s
    else
      var prev := DepartureLoop(s, order[..|order| - 1], nameFaces, ids, now, awayThreshold, time, clock);
      var name := order[|order| - 1];
      var face := nameFaces[name];
      if DepartureDue(prev, name, face, ids, now, awayThreshold) then
        prev.(desk := Depart(prev.desk, name),
              log := CloseEntry(prev.log, name, time),
              status := ResetStatus(prev.status, face, clock))
      else prev
  }

  /** One update_presence call: `now` is the cycle's time stamp, `date`/`time`
      the wall-clock strings written to the file, `clock` the wall-clock
      reading used when a verification is reset. */
  function Updated(s: LoggerState, recognized: seq<(string, string)>, now: real, date: string, time: string,
                   clock: real, verificationTime: real, awayThreshold: real): LoggerState
    requires OrderValid(s.names)
  {
    var known := Known(recognized);
    var s1 := FirstLoop(s, known, now, verificationTime);
    FirstLoopOrder(s, known, now, verificationTime);
    var s2 := ArrivalLoop(s1, known, now, date, time);
    DepartureLoop(s2, s2.names.order, s2.names.nameFaces, FaceIds(known), now, awayThreshold, time, clock)
  }

  lemma {:induction false} FirstLoopOrder(s: LoggerState, pairs: seq<(string, string)>, now: real, verificationTime: real)
    requires OrderValid(s.names)
    ensures OrderValid(FirstLoop(s, pairs, now, verificationTime).names)
  {
    if pairs != [] {
      FirstLoopOrder(s, pairs[..|pairs| - 1], now, verificationTime);
    }
  }

  // ---------------------------------------------------------------------------
  // Properties of one update_presence call

  lemma {:induction false} ArrivalLoopDesk(s: LoggerState, pairs: seq<(string, string)>, now: real, date: string, time: string)
    ensures Everyone(ArrivalLoop(s, pairs, now, date, time).desk) == Everyone(s.desk)
    ensures Disjoint(s.desk) ==> Disjoint(ArrivalLoop(s, pairs, now, date, time).desk)
    ensures s.desk == Desk({}, {}) ==> ArrivalLoop(s, pairs, now, date, time).log == s.log
  {
    if pairs != [] {
      ArrivalLoopDesk(s, pairs[..|pairs| - 1], now, date, time);
    }
  }

  lemma {:induction false} DepartureLoopDesk(s: LoggerState, order: seq<string>, nameFaces: map<string, string>,
                                             ids: set<string>, now: real, awayThreshold: real, time: string, clock: real)
    requires forall i :: 0 <= i < |order| ==> order[i] in nameFaces
    ensures Everyone(DepartureLoop(s, order, nameFaces, ids, now, awayThreshold, time, clock).desk) == Everyone(s.desk)
    ensures Disjoint(s.desk) ==> Disjoint(DepartureLoop(s, order, nameFaces, ids, now, awayThreshold, time, clock).desk)
    ensures s.desk == Desk({}, {}) ==>
      DepartureLoop(s, order, nameFaces, ids, now, awayThreshold, time, clock).log == s.log &&
      DepartureLoop(s, order, nameFaces, ids, now, awayThreshold, time, clock).status == s.status
  {
    if order != [] {
      DepartureLoopDesk(s, order[..|order| - 1], nameFaces, ids, now, awayThreshold, time, clock);
    }
  }

  /** update_presence keeps the two sets disjoint and never changes their
      union; from empty sets it changes neither the sets nor the file. */
  lemma UpdateKeepsDesk(s: LoggerState, recognized: seq<(string, string)>, now: real, date: string, time: string,
                        clock: real, verificationTime: real, awayThreshold: real)
    requires OrderValid(s.names)
    ensures Everyone(Updated(s, recognized, now, date, time, clock, verificationTime, awayThreshold).desk) == Everyone(s.desk)
    ensures Disjoint(s.desk) ==> Disjoint(Updated(s, recognized, now, date, time, clock, verificationTime, awayThreshold).desk)
    ensures s.desk == Desk({}, {}) ==>
      Updated(s, recognized, now, date, time, clock, verificationTime, awayThreshold).desk == s.desk &&
      Updated(s, recognized, now, date, time, clock, verificationTime, awayThreshold).log == s.log
  {
    var known := Known(recognized);
    var s1 := FirstLoop(s, known, now, verificationTime);
    FirstLoopOrder(s, known, now, verificationTime);
    var s2 := ArrivalLoop(s1, known, now, date, time);
    ArrivalLoopDesk(s1, known, now, date, time);
    DepartureLoopDesk(s2, s2.names.order, s2.names.nameFaces, FaceIds(known), now, awayThreshold, time, clock);
  }

  /** After the first loop every recognised face maps to its name, and every
      recognised name has a face in name_faces. */
  lemma {:induction false} FirstLoopNames(s: LoggerState, pairs: seq<(string, string)>, now: real, verificationTime: real)
    requires OrderValid(s.names) && DistinctFaces(pairs)
    ensures forall p :: p in pairs ==>
      && p.0 in FirstLoop(s, pairs, now, verificationTime).names.faceNames
      && FirstLoop(s, pairs, now, verificationTime).names.faceNames[p.0] == p.1
      && p.1 in FirstLoop(s, pairs, now, verificationTime).names.nameFaces
  {
    if pairs != [] {
      var prefix := pairs[..|pairs| - 1];
      assert DistinctFaces(prefix) by {
        forall i, j | 0 <= i < j < |prefix| ensures prefix[i].0 != prefix[j].0 {
          assert prefix[i] == pairs[i] && prefix[j] == pairs[j];
        }
      }
      FirstLoopNames(s, prefix, now, verificationTime);
      FirstLoopOrder(s, prefix, now, verificationTime);
      var last := pairs[|pairs| - 1];
      forall p | p in pairs
        ensures p.0 in FirstLoop(s, pairs, now, verificationTime).names.faceNames
        ensures FirstLoop(s, pairs, now, verificationTime).names.faceNames[p.0] == p.1
        ensures p.1 in FirstLoop(s, pairs, now, verificationTime).names.nameFaces
      {
        if p != last {
          var k :| 0 <= k < |pairs| && pairs[k] == p;
          assert k < |pairs| - 1;
          assert prefix[k] == p;
          assert p.0 != last.0;
        }
      }
    }
  }

  /** A mapping whose face already carries the name is not refreshed, so
      name_faces can keep pointing at another face: face "b" took "Bob" from
      face "a", and "a" is recognised as "Bob" again. */
  lemma NameFacesCanBeStale()
    ensures Associate(Names(map["a" := "Bob", "b" := "Bob"], map["Bob" := "b"], ["Bob"]), "a", "Bob").nameFaces["Bob"] == "b"
  {
  }

  /** The second loop refreshes last_seen_times of exactly the names of verified
      faces, to `now`; every other entry is unchanged. */
  lemma {:induction false} ArrivalLoopLastSeen(s: LoggerState, pairs: seq<(string, string)>, now: real, date: string, time: string)
    ensures forall n :: n !in s.lastSeen && (forall p :: p in pairs && IsVerified(s.status, p.0) ==> p.1 != n) ==>
      n !in ArrivalLoop(s, pairs, now, date, time).lastSeen
    ensures forall n :: n in s.lastSeen && (forall p :: p in pairs && IsVerified(s.status, p.0) ==> p.1 != n) ==>
      n in ArrivalLoop(s, pairs, now, date, time).lastSeen && ArrivalLoop(s, pairs, now, date, time).lastSeen[n] == s.lastSeen[n]
    ensures forall p :: p in pairs && IsVerified(s.status, p.0) ==>
      p.1 in ArrivalLoop(s, pairs, now, date, time).lastSeen && ArrivalLoop(s, pairs, now, date, time).lastSeen[p.1] == now
  {
    if pairs != [] {
      var prefix := pairs[..|pairs| - 1];
      ArrivalLoopLastSeen(s, prefix, now, date, time);
      forall p | p in prefix ensures p in pairs { }
      forall p | p in pairs && p != pairs[|pairs| - 1] ensures p in prefix {
        var k :| 0 <= k < |pairs| && pairs[k] == p;
        assert prefix[k] == p;
      }
    }
  }

  /** The second loop moves a name from away to at-desk exactly when the name
      was away and belongs to a verified face; nobody else moves. */
  lemma {:induction false} ArrivalLoopMoves(s: LoggerState, pairs: seq<(string, string)>, now: real, date: string, time: string)
    requires Disjoint(s.desk)
    ensures forall n :: n in s.desk.away ==>
      (n in ArrivalLoop(s, pairs, now, date, time).desk.atDesk <==> exists p :: p in pairs && IsVerified(s.status, p.0) && p.1 == n)
    ensures forall n :: n in s.desk.atDesk ==> n in ArrivalLoop(s, pairs, now, date, time).desk.atDesk
  {
    if pairs != [] {
      var prefix := pairs[..|pairs| - 1];
      ArrivalLoopMoves(s, prefix, now, date, time);
      ArrivalLoopDesk(s, prefix, now, date, time);
      var last := pairs[|pairs| - 1];
      forall n | n in s.desk.away
        ensures n in ArrivalLoop(s, pairs, now, date, time).desk.atDesk <==> exists p :: p in pairs && IsVerified(s.status, p.0) && p.1 == n
      {
        if exists p :: p in pairs && IsVerified(s.status, p.0) && p.1 == n {
          var p :| p in pairs && IsVerified(s.status, p.0) && p.1 == n;
          if p != last {
            var k :| 0 <= k < |pairs| && pairs[k] == p;
            assert prefix[k] == p;
          }
        }
        if exists p :: p in prefix && IsVerified(s.status, p.0) && p.1 == n {
          var p :| p in prefix && IsVerified(s.status, p.0) && p.1 == n;
          assert p in pairs;
        }
      }
    }
  }

  /** The third loop moves a name from at-desk to away exactly when it is
      listed in name_faces, its face was not recognised this cycle and its
      last-seen time is more than the threshold ago; nobody else moves. */
  lemma {:induction false} DepartureLoopMoves(s: LoggerState, order: seq<string>, nameFaces: map<string, string>,
                                              ids: set<string>, now: real, awayThreshold: real, time: string, clock: real)
    requires forall i :: 0 <= i < |order| ==> order[i] in nameFaces
    requires Distinct(order) && Disjoint(s.desk)
    ensures forall n :: n in s.desk.atDesk ==>
      (n in DepartureLoop(s, order, nameFaces, ids, now, awayThreshold, time, clock).desk.away <==>
         (n in order && nameFaces[n] !in ids && now - LastSeen(s.lastSeen, n) > awayThreshold))
    ensures forall n :: n in s.desk.away ==> n in DepartureLoop(s, order, nameFaces, ids, now, awayThreshold, time, clock).desk.away
  {
    if order != [] {
      var prefix := order[..|order| - 1];
      assert Distinct(prefix);
      DepartureLoopMoves(s, prefix, nameFaces, ids, now, awayThreshold, time, clock);
      DepartureLoopDesk(s, prefix, nameFaces, ids, now, awayThreshold, time, clock);
      var last := order[|order| - 1];
      assert last !in prefix;
      forall n | n in s.desk.atDesk && n != last
        ensures n in order <==> n in prefix
      {
        if n in order {
          var k :| 0 <= k < |order| && order[k] == n;
          assert prefix[k] == n;
        }
      }
    }
  }

  /** The membership change made by one update_presence call, for a threshold
      that is not negative: a name that was away is now at the desk exactly
      when one of its faces is verified after this cycle's updates, and a name
      that was at the desk is now away exactly when its mapped face was not
      recognised and it was last seen more than the threshold ago. */
  lemma UpdateMoves(s: LoggerState, recognized: seq<(string, string)>, now: real, date: string, time: string,
                    clock: real, verificationTime: real, awayThreshold: real)
    requires OrderValid(s.names) && Disjoint(s.desk)
    requires awayThreshold >= 0.0
    ensures var known := Known(recognized);
      var s1 := FirstLoop(s, known, now, verificationTime);
      var r := Updated(s, recognized, now, date, time, clock, verificationTime, awayThreshold);
      && (forall n :: n in s.desk.away ==>
           (n in r.desk.atDesk <==> exists p :: p in known && IsVerified(s1.status, p.0) && p.1 == n))
      && (forall n :: n in s.desk.atDesk ==>
           (n in r.desk.away <==>
              n in r.names.nameFaces && r.names.nameFaces[n] !in FaceIds(known)
              && now - LastSeen(r.lastSeen, n) > awayThreshold))
  {
    var known := Known(recognized);
    var s1 := FirstLoop(s, known, now, verificationTime);
    FirstLoopOrder(s, known, now, verificationTime);
    var s2 := ArrivalLoop(s1, known, now, date, time);
    ArrivalLoopDesk(s1, known, now, date, time);
    ArrivalLoopMoves(s1, known, now, date, time);
    ArrivalLoopLastSeen(s1, known, now, date, time);
    var ids := FaceIds(known);
    DepartureLoopMoves(s2, s2.names.order, s2.names.nameFaces, ids, now, awayThreshold, time, clock);
    DepartureLoopDesk(s2, s2.names.order, s2.names.nameFaces, ids, now, awayThreshold, time, clock);
    var r := Updated(s, recognized, now, date, time, clock, verificationTime, awayThreshold);
    forall n | n in s.desk.away
      ensures n in r.desk.atDesk <==> exists p :: p in known && IsVerified(s1.status, p.0) && p.1 == n
    {
      if exists p :: p in known && IsVerified(s1.status, p.0) && p.1 == n {
        // Just arrived: last seen now, so not due for departure.
        assert n in s2.desk.atDesk;
        assert LastSeen(s2.lastSeen, n) == now;
      }
    }
  }

  // ---------------------------------------------------------------------------
  // The logger object

  /** get_presence_status for one set: the names joined by ", ", or "None".
      `listing` is the set's iteration order, which Python leaves to hashing. */
  function StatusText(people: set<string>, listing: seq<string>): (text: string)
    requires Distinct(listing) && SeqToSet(listing) == people
    ensures people == {} ==> text == "None"
    ensures people != {} ==> text == Join(listing, ", ")
  {
    if people == {} then "None" else Join(listing, ", ")
  }

  class AttendanceLogger {
    var peopleAtDesk: set<string>
    var peopleAway: set<string>
    var lastSeenTimes: map<string, real>
    var faceNames: map<string, string>
    var nameFaces: map<string, string>
    /** Insertion order of name_faces' keys. */
    var nameOrder: seq<string>
    /** The attendance file, line by line. */
    var logLines: seq<string>
    const verifier: PresenceVerifier
    const awayThreshold: real

    ghost predicate Valid()
      reads this
    {
      peopleAtDesk !! peopleAway && OrderValid(Names(faceNames, nameFaces, nameOrder))
    }

    function State(): LoggerState
      reads this, verifier
    {
      LoggerState(Desk(peopleAtDesk, peopleAway), lastSeenTimes, Names(faceNames, nameFaces, nameOrder),
                  logLines, verifier.faceStatus)
    }

    /** A new logger: empty sets and maps, a fresh verifier, and the log file
        as found, or holding only the header row when there was none. */
    constructor (verificationTime: real, awayThreshold: real, existingLog: Option<seq<string>>)
      ensures Valid()
      ensures fresh(verifier) && verifier.verificationTime == verificationTime && verifier.faceStatus == map[]
      ensures this.awayThreshold == awayThreshold
      ensures peopleAtDesk == {} && peopleAway == {}
      ensures lastSeenTimes == map[] && faceNames == map[] && nameFaces == map[] && nameOrder == []
      ensures logLines == if existingLog.None? then [LogHeader] else existingLog.value
    {
      peopleAtDesk := {};
      peopleAway := {};
      lastSeenTimes := map[];
      faceNames := map[];
      nameFaces := map[];
      nameOrder := [];
      verifier := new PresenceVerifier(verificationTime);
      this.awayThreshold := awayThreshold;
      logLines := if existingLog.None? then [LogHeader] else existingLog.value;
    }

    /** log_attendance: "arrival" appends a row; any other action closes the
        first open row of the name, or leaves the file alone. */
    method LogAttendance(name: string, action: string, date: string, time: string)
      modifies this`logLines
      ensures action == "arrival" ==> logLines == old(logLines) + [ArrivalEntry(name, date, time)]
      ensures action != "arrival" ==> logLines == CloseEntry(old(logLines), name, time)
    {
      if action == "arrival" {
        logLines := logLines + [name + "," + date + "," + time + "," + "\n"];
      } else {
        var found := FindOpenEntry(name);
        if found.Some? {
          var i := found.value;
          logLines := logLines[i := Strip(logLines[i]) + time + "\n"];
        }
      }
    }

    /** The scan of log_attendance's departure branch: the index of the first
        row of the log that starts with `name` and, stripped, ends with a
        comma, or None when no row does. */
    method FindOpenEntry(name: string) returns (found: Option<nat>)
      ensures found == FirstOpenEntry(logLines, name)
    {
      var i := 0;
      while i < |logLines|
        invariant 0 <= i <= |logLines|
        invariant forall j :: 0 <= j < i ==> !IsOpenEntry(logLines[j], name)
      {
        if IsOpenEntry(logLines[i], name) {
          FirstOpenEntryAt(logLines, name, i);
          return Some(i);
        }
        i := i + 1;
      }
      FirstOpenEntryAt(logLines, name, i);
      return None;
    }

    /** update_presence for one cycle (see Updated). */
    method UpdatePresence(recognized: seq<(string, string)>, now: real, date: string, time: string, clock: real)
      requires Valid()
      modifies this, verifier
      ensures Valid()
      ensures State() == Updated(old(State()), recognized, now, date, time, clock, verifier.verificationTime, awayThreshold)
      ensures peopleAtDesk + peopleAway == old(peopleAtDesk) + old(peopleAway)
      ensures old(peopleAtDesk) == {} && old(peopleAway) == {} ==>
        peopleAtDesk == {} && peopleAway == {} && logLines == old(logLines)
    {
      ghost var s0 := State();
      var known := Known(recognized);
      MapFaces(known, now);
      ArriveVerified(known, now, date, time);
      DepartAbsent(FaceIds(known), now, date, time, clock);
      UpdateKeepsDesk(s0, recognized, now, date, time, clock, verifier.verificationTime, awayThreshold);
    }

    /** The first loop of update_presence. */
    method MapFaces(known: seq<(string, string)>, now: real)
      requires Valid()
      modifies this`faceNames, this`nameFaces, this`nameOrder, verifier
      ensures Valid()
      ensures State() == FirstLoop(old(State()), known, now, verifier.verificationTime)
    {
      ghost var s0 := State();
      var i := 0;
      while i < |known|
        invariant 0 <= i <= |known|
        invariant State() == FirstLoop(s0, known[..i], now, verifier.verificationTime)
        invariant OrderValid(Names(faceNames, nameFaces, nameOrder))
      {
        var (face, name) := known[i];
        ghost var before := State();
        assert known[..i + 1][..i] == known[..i];
        assert FirstLoop(s0, known[..i + 1], now, verifier.verificationTime)
            == before.(status := before.status[face := Observed(Lookup(before.status, face), now, verifier.verificationTime)],
                       names := Associate(before.names, face, name));
        verifier.UpdateFace(face, now);
        RecordName(face, name);
        i := i + 1;
      }
      assert known[..|known|] == known;
    }

    /** The mapping step of the first loop of update_presence. */
    method RecordName(face: string, name: string)
      modifies this`faceNames, this`nameFaces, this`nameOrder
      ensures Names(faceNames, nameFaces, nameOrder) == Associate(old(Names(faceNames, nameFaces, nameOrder)), face, name)
    {
      if face !in faceNames || faceNames[face] != name {
        faceNames := faceNames[face := name];
        if name !in nameFaces {
          nameOrder := nameOrder + [name];
        }
        nameFaces := nameFaces[name := face];
      }
    }

    /** The second loop of update_presence. */
    method ArriveVerified(known: seq<(string, string)>, now: real, date: string, time: string)
      requires Valid()
      modifies this`lastSeenTimes, this`peopleAtDesk, this`peopleAway, this`logLines
      ensures Valid()
      ensures State() == ArrivalLoop(old(State()), known, now, date, time)
    {
      ghost var s0 := State();
      var i := 0;
      while i < |known|
        invariant 0 <= i <= |known|
        invariant State() == ArrivalLoop(s0, known[..i], now, date, time)
        invariant peopleAtDesk !! peopleAway
      {
        var (face, name) := known[i];
        assert known[..i + 1][..i] == known[..i];
        if verifier.CheckVerification(face) {
          lastSeenTimes := lastSeenTimes[name := now];
          if name in peopleAway {
            peopleAway := peopleAway - {name};
            peopleAtDesk := peopleAtDesk + {name};
            LogAttendance(name, "arrival", date, time);
          }
        }
        i := i + 1;
      }
      assert known[..|known|] == known;
    }

    /** The third loop of update_presence, over a snapshot of name_faces. */
    method DepartAbsent(ids: set<string>, now: real, date: string, time: string, clock: real)
      requires Valid()
      modifies this`peopleAtDesk, this`peopleAway, this`logLines, verifier
      ensures Valid()
      ensures State() == DepartureLoop(old(State()), old(nameOrder), old(nameFaces), ids, now, awayThreshold, time, clock)
    {
      ghost var s0 := State();
      var order := nameOrder;
      var faces := nameFaces;
      assert forall j :: 0 <= j < |order| ==> order[j] in SeqToSet(order);
      var i := 0;
      while i < |order|
        invariant 0 <= i <= |order|
        invariant State() == DepartureLoop(s0, order[..i], faces, ids, now, awayThreshold, time, clock)
        invariant peopleAtDesk !! peopleAway
      {
        var name := order[i];
        var face := faces[name];
        assert order[..i + 1][..i] == order[..i];
        DepartIfDue(name, face, ids, now, date, time, clock);
        i := i + 1;
      }
      assert order[..|order|] == order;
    }

    /** One iteration of the third loop of update_presence. */
    method DepartIfDue(name: string, face: string, ids: set<string>, now: real, date: string, time: string, clock: real)
      modifies this`peopleAtDesk, this`peopleAway, this`logLines, verifier
      ensures State() == if DepartureDue(old(State()), name, face, ids, now, awayThreshold)
        then old(State()).(desk := Depart(old(State()).desk, name),
                           log := CloseEntry(old(State()).log, name, time),
                           status := ResetStatus(old(State()).status, face, clock))
        else old(State())
    {
      if face !in ids {
        var timeAway := now - LastSeen(lastSeenTimes, name);
        if timeAway > awayThreshold && name in peopleAtDesk {
          peopleAtDesk := peopleAtDesk - {name};
          peopleAway := peopleAway + {name};
          LogAttendance(name, "departure", date, time);
          verifier.ResetVerification(face, clock);
        }
      }
    }

    /** get_presence_status, given the iteration order of each set. */
    function GetPresenceStatus(presentListing: seq<string>, awayListing: seq<string>): (texts: (string, string))
      reads this
      requires Distinct(presentListing) && SeqToSet(presentListing) == peopleAtDesk
      requires Distinct(awayListing) && SeqToSet(awayListing) == peopleAway
      ensures texts == (StatusText(peopleAtDesk, presentListing), StatusText(peopleAway, awayListing))
    {
      (StatusText(peopleAtDesk, presentListing), StatusText(peopleAway, awayListing))
    }
  }
}
