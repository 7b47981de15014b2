/** Presence verification: a per-face debounce. A face id becomes verified once it
    has been seen for `verificationTime` seconds since its first sighting, and
    stays verified until its entry is reset or cleared. */
module Presence {
  import opened Common

  /** The source's PresenceStatus dataclass. */
  datatype PresenceStatus = PresenceStatus(firstSeenTime: real, isVerified: bool, totalPresenceTime: real)

  /** The entry for `faceId` after one update_face at time `now`; `st` is the
      entry before the call (None when the id is untracked). */
  function Observed(st: Option<PresenceStatus>, now: real, verificationTime: real): PresenceStatus
  {
    var s := if st.None? then PresenceStatus(now, false, 0.0) else st.value;
    if s.isVerified then s
    else
      var total := now - s.firstSeenTime;
      PresenceStatus(s.firstSeenTime, total >= verificationTime, total)
  }

  function Lookup(m: map<string, PresenceStatus>, faceId: string): Option<PresenceStatus>
  {
    if faceId in m then Some(m[faceId]) else None
  }

  /** The first update of an unseen id records `now` as the first sighting,
      with zero presence time; it is verified only when the threshold is not
      positive. */
  lemma FirstObservation(now: real, verificationTime: real)
    ensures Observed(None, now, verificationTime)
         == PresenceStatus(now, 0.0 >= verificationTime, 0.0)
  {
  }

  /** While unverified, an update sets the presence time to the time elapsed
      since the first sighting, and verifies exactly when that reaches the
      threshold; once verified, an update changes nothing. */
  lemma ObservationStep(s: PresenceStatus, now: real, verificationTime: real)
    ensures !s.isVerified ==>
      && Observed(Some(s), now, verificationTime).firstSeenTime == s.firstSeenTime
      && Observed(Some(s), now, verificationTime).totalPresenceTime == now - s.firstSeenTime
      && (Observed(Some(s), now, verificationTime).isVerified <==> now - s.firstSeenTime >= verificationTime)
    ensures s.isVerified ==> Observed(Some(s), now, verificationTime) == s
  {
  }

  /** The entry of one id after update_face at each of `times` in turn,
      starting from `st`. */
  function Replay(st: Option<PresenceStatus>, times: seq<real>, verificationTime: real): Option<PresenceStatus>
    ensures times != [] ==> Replay(st, times, verificationTime).Some?
  {
    if times == [] then st
    else Some(Observed(Replay(st, times[..|times| - 1], verificationTime), times[|times| - 1], verificationTime))
  }

  /** Replaying updates on a fresh id keeps the first update's time as the
      first sighting. */
  lemma {:induction false} ReplayFirstSeen(times: seq<real>, verificationTime: real)
    requires times != []
    ensures Replay(None, times, verificationTime).value.firstSeenTime == times[0]
  {
    if |times| > 1 {
      ReplayFirstSeen(times[..|times| - 1], verificationTime);
      assert times[..|times| - 1][0] == times[0];
    }
  }

  /** A fresh id is verified after a run of updates exactly when one of the
      update times lies at least `verificationTime` after the first one. */
  lemma {:induction false} ReplayVerifiedIff(times: seq<real>, verificationTime: real)
    requires times != []
    ensures Replay(None, times, verificationTime).value.isVerified
        <==> exists i :: 0 <= i < |times| && times[i] - times[0] >= verificationTime
  {
    var n := |times|;
    if n == 1 {
    } else {
      var prefix := times[..n - 1];
      ReplayVerifiedIff(prefix, verificationTime);
      ReplayFirstSeen(prefix, verificationTime);
      assert prefix[0] == times[0];
      var before := Replay(None, prefix, verificationTime).value;
      if exists i :: 0 <= i < n && times[i] - times[0] >= verificationTime {
        var i :| 0 <= i < n && times[i] - times[0] >= verificationTime;
        if i < n - 1 {
          assert prefix[i] == times[i];
        }
      }
      if before.isVerified {
        var i :| 0 <= i < n - 1 && prefix[i] - prefix[0] >= verificationTime;
        assert times[i] == prefix[i];
      }
    }
  }

  /** Verification is monotone: once verified, further updates keep the entry
      exactly as it was. */
  lemma {:induction false} VerifiedIsStable(st: Option<PresenceStatus>, times: seq<real>, verificationTime: real)
    requires st.Some? && st.value.isVerified
    ensures Replay(st, times, verificationTime) == st
  {
    if times != [] {
      VerifiedIsStable(st, times[..|times| - 1], verificationTime);
    }
  }

  /** The documented scenario: threshold 10 s and updates every 2 s from 0 to 10;
      the id is unverified after the update at 8 and verified after the one
      at 10. */
  lemma TwoSecondCadence()
    ensures !Replay(None, [0.0, 2.0, 4.0, 6.0, 8.0], 10.0).value.isVerified
    ensures Replay(None, [0.0, 2.0, 4.0, 6.0, 8.0, 10.0], 10.0).value.isVerified
  {
    ReplayVerifiedIff([0.0, 2.0, 4.0, 6.0, 8.0], 10.0);
    ReplayVerifiedIff([0.0, 2.0, 4.0, 6.0, 8.0, 10.0], 10.0);
    assert [0.0, 2.0, 4.0, 6.0, 8.0, 10.0][5] - 0.0 >= 10.0;
  }

  /** The source's PresenceVerifier. */
  class PresenceVerifier {
    const verificationTime: real
    var faceStatus: map<string, PresenceStatus>

    constructor (verificationTime: real)
      ensures this.verificationTime == verificationTime
      ensures faceStatus == map[]
    {
      this.verificationTime := verificationTime;
      faceStatus := map[];
    }

    /** update_face: start tracking an unseen id, then advance its presence
        time unless it is already verified. No other id is touched. */
    method UpdateFace(faceId: string, now: real)
      modifies this
      ensures faceStatus == old(faceStatus)[faceId := Observed(Lookup(old(faceStatus), faceId), now, verificationTime)]
    {
      if faceId !in faceStatus {
        faceStatus := faceStatus[faceId := PresenceStatus(now, false, 0.0)];
      }
      var status := faceStatus[faceId];
      if !status.isVerified {
        status := status.(totalPresenceTime := now - status.firstSeenTime);
        if status.totalPresenceTime >= verificationTime {
          status := status.(isVerified := true);
        }
        faceStatus := faceStatus[faceId := status];
      }
    }

    /** check_verification: false for untracked ids. */
    function CheckVerification(faceId: string): (verified: bool)
      reads this
      ensures faceId !in faceStatus ==> !verified
      ensures faceId in faceStatus ==> verified == faceStatus[faceId].isVerified
    {
      faceId in faceStatus && faceStatus[faceId].isVerified
    }

    /** get_presence_time: 0.0 for untracked ids. */
    function GetPresenceTime(faceId: string): (t: real)
      reads this
      ensures faceId !in faceStatus ==> t == 0.0
      ensures faceId in faceStatus ==> t == faceStatus[faceId].totalPresenceTime
    {
      if faceId in faceStatus then faceStatus[faceId].totalPresenceTime else 0.0
    }

    /** reset_verification: a tracked id restarts unverified, with zero presence
        time and the wall clock `clock` as its first sighting; untracked ids are
        left alone. */
    method ResetVerification(faceId: string, clock: real)
      modifies this
      ensures faceId in old(faceStatus) ==> faceStatus == old(faceStatus)[faceId := PresenceStatus(clock, false, 0.0)]
      ensures faceId !in old(faceStatus) ==> faceStatus == old(faceStatus)
    {
      if faceId in faceStatus {
        var status := faceStatus[faceId];
        status := status.(isVerified := false);
        status := status.(totalPresenceTime := 0.0);
        status := status.(firstSeenTime := clock);
        faceStatus := faceStatus[faceId := status];
      }
    }

    /** clear_face: forget one id. */
    method ClearFace(faceId: string)
      modifies this
      ensures faceStatus == old(faceStatus) - {faceId}
    {
      faceStatus := faceStatus - {faceId};
    }
  }
}
