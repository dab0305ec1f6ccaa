/** The attendance session (chibi/services/attendance_session.py): one
    object moving between inactive and active, holding the code currently
    shown to the class and the submissions keyed by user. Clock readings are
    parameters (`now`, in whole seconds), and so is the random source of the
    code rotation. */
module Attendance {
  import opened Wrappers
  import opened Text
  import opened CodeGenerator
  import opened Dicts

  /** The three exceptions the session raises. */
  datatype AttendanceError = SessionAlreadyActive | NoActiveSession | InvalidCode(code: string)

  /** What is stored for a user's latest submission. */
  datatype Submission = Submission(username: string, timestamp: int, code: string)

  /** One row of the list `end_session` returns. */
  datatype AttendanceRecord = AttendanceRecord(userId: int, username: string, timestamp: int)

  /** The record `end_session` builds for a user's submission. */
  function RecordOf(userId: int, s: Submission): AttendanceRecord {
    AttendanceRecord(userId, s.username, s.timestamp)
  }

  /** `records` holds, position by position, the record of each user in
      `order`, built from that user's submission. */
  ghost predicate RecordsOf(records: seq<AttendanceRecord>, order: seq<int>, subs: map<int, Submission>) {
    |records| == |order|
    && forall i :: 0 <= i < |order| ==> order[i] in subs && records[i] == RecordOf(order[i], subs[order[i]])
  }

  /** Storing a user's submission adds one entry for a new user and none
      for a user who already submitted. */
  lemma SubmissionCount(subs: map<int, Submission>, userId: int, s: Submission)
    ensures |subs[userId := s]| == if userId in subs then |subs| else |subs| + 1
  {
    if userId in subs {
      assert subs[userId := s].Keys == subs.Keys;
    } else {
      assert subs[userId := s].Keys == subs.Keys + {userId};
    }
  }

  /** Records built along the insertion order name every submitting user
      exactly once, with that user's latest submission. */
  lemma {:induction false} RecordsOnePerUser(records: seq<AttendanceRecord>, order: seq<int>, subs: map<int, Submission>)
    requires Ordered(order, subs) && RecordsOf(records, order, subs)
    ensures |records| == |subs|
    ensures forall i, j :: 0 <= i < j < |records| ==> records[i].userId != records[j].userId
    ensures forall u :: u in subs ==> exists i :: 0 <= i < |records| && records[i] == RecordOf(u, subs[u])
  {
    OrderedLength(order, subs);
    forall u | u in subs
      ensures exists i :: 0 <= i < |records| && records[i] == RecordOf(u, subs[u])
    {
      var i :| 0 <= i < |order| && order[i] == u;
      assert records[i] == RecordOf(u, subs[u]);
    }
  }

  /** The loop of `end_session` over `submissions.items()`. */
  method RecordsFor(order: seq<int>, subs: map<int, Submission>) returns (records: seq<AttendanceRecord>)
    requires Ordered(order, subs)
    ensures RecordsOf(records, order, subs)
  {
    records := [];
    for k := 0 to |order|
      invariant RecordsOf(records, order[..k], subs)
    {
      records := records + [RecordOf(order[k], subs[order[k]])];
    }
    assert order[..|order|] == order;
  }

  class AttendanceSessionManager {
    var sessionId: Option<string>
    var currentCode: Option<string>
    var messageId: Option<int>
    var channelId: Option<int>
    var attendanceMessageId: Option<int>
    var attendanceChannelId: Option<int>
    var startTime: Option<int>
    var submissions: map<int, Submission>
    /** The users of `submissions` in the order the dictionary iterates them. */
    var order: seq<int>
    var isActive: bool

    /** An active session has an id and a code, and `order` lists the
        submitting users. */
    ghost predicate Valid()
      reads this
    {
      (isActive ==> sessionId.Some? && currentCode.Some?)
      && Ordered(order, submissions)
    }

    /** `validate_code`'s answer: the session is active and the code is the
        current one. */
    predicate Accepts(code: string)
      reads this
    {
      isActive && currentCode == Some(code)
    }

    /** Every field empty, no submissions, inactive. */
    predicate IsReset()
      reads this
    {
      sessionId.None? && currentCode.None? && messageId.None? && channelId.None?
      && attendanceMessageId.None? && attendanceChannelId.None? && startTime.None?
      && submissions == map[] && order == [] && !isActive
    }

    constructor()
      ensures IsReset() && Valid()
    {
      sessionId, currentCode, messageId, channelId := None, None, None, None;
      attendanceMessageId, attendanceChannelId, startTime := None, None, None;
      submissions, isActive := map[], false;
      order := [];
    }

    /** `start_session`: refused while a session is active; otherwise a new
        active session with the initial code, an id made from the clock and
        no submissions. */
    method StartSession(initialCode: string, newMessageId: int, newChannelId: int, now: int)
      returns (err: Option<AttendanceError>)
      modifies this
      ensures old(isActive) ==> err == Some(SessionAlreadyActive) && unchanged(this)
      ensures !old(isActive) ==> (err.None? && isActive
        && sessionId == Some(IntToString(now)) && currentCode == Some(initialCode)
        && messageId == Some(newMessageId) && channelId == Some(newChannelId)
        && startTime == Some(now) && submissions == map[] && order == []
        && attendanceMessageId == old(attendanceMessageId) && attendanceChannelId == old(attendanceChannelId))
      ensures old(Valid()) ==> Valid()
    {
      if isActive {
        return Some(SessionAlreadyActive);
      }
      sessionId := Some(IntToString(now));
      currentCode := Some(initialCode);
      messageId := Some(newMessageId);
      channelId := Some(newChannelId);
      startTime := Some(now);
      submissions := map[];
      order := [];
      isActive := true;
      err := None;
    }

    /** `update_code`: only in an active session, and only the code changes. */
    method UpdateCode(newCode: string) returns (err: Option<AttendanceError>)
      modifies this
      ensures !old(isActive) ==> err == Some(NoActiveSession) && unchanged(this)
      ensures old(isActive) ==> (err.None? && currentCode == Some(newCode)
        && sessionId == old(sessionId) && messageId == old(messageId) && channelId == old(channelId)
        && attendanceMessageId == old(attendanceMessageId) && attendanceChannelId == old(attendanceChannelId)
        && startTime == old(startTime) && submissions == old(submissions) && order == old(order) && isActive)
      ensures old(Valid()) ==> Valid()
    {
      if !isActive {
        return Some(NoActiveSession);
      }
      currentCode := Some(newCode);
      err := None;
    }

    /** `submit_attendance`: refused without an active session or with a
        code other than the current one, leaving everything as it was;
        otherwise the user's entry is set, replacing an earlier one. */
    method SubmitAttendance(userId: int, username: string, code: string, now: int)
      returns (err: Option<AttendanceError>)
      modifies this
      ensures !old(isActive) ==> err == Some(NoActiveSession) && unchanged(this)
      ensures old(isActive) && old(currentCode) != Some(code) ==>
        err == Some(InvalidCode(code)) && unchanged(this)
      ensures old(Accepts(code)) ==> (err.None?
        && submissions == old(submissions)[userId := Submission(username, now, code)]
        && order == Store(old(order), userId)
        && sessionId == old(sessionId) && currentCode == old(currentCode)
        && messageId == old(messageId) && channelId == old(channelId)
        && attendanceMessageId == old(attendanceMessageId) && attendanceChannelId == old(attendanceChannelId)
        && startTime == old(startTime) && isActive)
      ensures |old(submissions)| <= |submissions| <= |old(submissions)| + 1
      ensures old(Valid()) ==> Valid()
    {
      if !isActive {
        return Some(NoActiveSession);
      }
      if Some(code) != currentCode {
        return Some(InvalidCode(code));
      }
      SubmissionCount(submissions, userId, Submission(username, now, code));
      if Valid() {
        StoreOrdered(order, submissions, userId, Submission(username, now, code));
      }
      order := Store(order, userId);
      submissions := submissions[userId := Submission(username, now, code)];
      err := None;
    }

    /** `validate_code`. */
    method ValidateCode(code: string) returns (ok: bool)
      ensures ok == Accepts(code)
    {
      if !isActive {
        return false;
      }
      ok := currentCode == Some(code);
    }

    /** `end_session`: refused without an active session; otherwise one
        record per submitting user, in first-submission order, and the
        session id, after which the session is inactive and has no code.
        The submissions stay until `reset`. */
    method EndSession() returns (r: Result<(seq<AttendanceRecord>, Option<string>), AttendanceError>)
      requires Valid()
      modifies this
      ensures !old(isActive) ==> r == Err(NoActiveSession) && unchanged(this)
      ensures old(isActive) ==> (r.Ok? && RecordsOf(r.value.0, old(order), old(submissions))
        && r.value.1 == old(sessionId)
        && !isActive && currentCode.None? && startTime.None?
        && submissions == old(submissions) && order == old(order) && sessionId == old(sessionId)
        && messageId == old(messageId) && channelId == old(channelId)
        && attendanceMessageId == old(attendanceMessageId) && attendanceChannelId == old(attendanceChannelId))
      ensures Valid()
    {
      if !isActive {
        return Err(NoActiveSession);
      }
      var records := RecordsFor(order, submissions);
      var id := sessionId;
      isActive := false;
      currentCode := None;
      startTime := None;
      r := Ok((records, id));
    }

    /** `get_submission_count`: the number of distinct users who submitted. */
    method GetSubmissionCount() returns (n: nat)
      ensures n == |submissions| && n == |submissions.Keys|
    {
      n := |submissions|;
    }

    /** `reset`: every field back to its initial value. */
    method Reset()
      modifies this
      ensures IsReset() && Valid()
    {
      sessionId, currentCode, messageId, channelId := None, None, None, None;
      attendanceMessageId, attendanceChannelId, startTime := None, None, None;
      submissions, isActive := map[], false;
      order := [];
    }
  }

  /** One pass of the rotation task (chibi/cogs/attendance.py): a new code
      that differs from the current one replaces it, so the code it replaces
      is no longer accepted. */
  method RotateCode(session: AttendanceSessionManager, length: nat, draws: nat -> Pick)
    requires session.isActive
    requires EventuallyDiffers(draws, length, session.currentCode)
    modifies session
    ensures session.currentCode != old(session.currentCode) && session.isActive
    ensures forall c :: old(session.Accepts(c)) ==> !session.Accepts(c)
    ensures session.submissions == old(session.submissions) && session.sessionId == old(session.sessionId)
    ensures old(session.Valid()) ==> session.Valid()
  {
    var newCode := GenerateCode(length, session.currentCode, draws);
    var err := session.UpdateCode(newCode);
  }

  /** What the `/here` command submits for a typed code: upper-cased, then
      stripped. */
  function NormalizeCode(typed: string): string {
    Strip(Upper(typed))
  }

  /** `/here`: the typed code is normalised, then submitted. */
  method Here(session: AttendanceSessionManager, userId: int, username: string, typed: string, now: int)
    returns (err: Option<AttendanceError>)
    modifies session
    ensures old(session.Accepts(NormalizeCode(typed))) ==>
      err.None? && session.submissions == old(session.submissions)[userId := Submission(username, now, NormalizeCode(typed))]
    ensures !old(session.Accepts(NormalizeCode(typed))) ==> err.Some? && unchanged(session)
  {
    err := session.SubmitAttendance(userId, username, NormalizeCode(typed), now);
  }
}
